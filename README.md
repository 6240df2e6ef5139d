# vaccicare in Dafny

A model of vaccicare, a children's vaccination-tracking web application. Parents register their children. A vaccination calendar is generated for each child from the vaccine catalogue. Doctors publish half-hour schedule slots that parents book as appointments. Doctors record doses, notes, lab-result reviews and side-effect follow-ups. Parents and doctors chat. Administrators manage users, vaccines and announcements.

The model has two halves.

- **Server.** The Express controllers of `server/controllers/` and the methods of `server/models/` are modelled over one store, the `Store.Db` class. It holds each MongoDB collection as a `map` from id to document, plus the next free id. Each controller action is a method whose `modifies` clause names exactly the collections the action writes. Its `ensures` give the HTTP outcome (a `Common.Result`, whose `Common.Error` names the 400, 401, 403, 404 or 500 answer) and the new contents of each collection. Each read-only query is a function over the store. The roles that the route files demand through `authorize(...)` are preconditions. The checks a controller makes itself (ownership, existence, state) are error outcomes.
- **Client.** The pages and components of `client/src/` are modelled as the decisions they make before rendering or before a request:
  - the route guards;
  - list filters and partitions;
  - the badges, counters and labels;
  - the request bodies and query strings;
  - the form state of the editors.
  Where a page keeps state that its handlers update, the model is a class with those fields.

Further conventions:

- Time is an integer number of milliseconds. The current time is a parameter.
- Ids are natural numbers, allocated in increasing order, so a collection's insertion order is ascending id order.
- Strings are sequences of characters.
- MongoDB's `find`, `sort`, `limit` and `updateMany` become filters, an insertion sort and maps over sequences. The sort is `Sorting.SortBy`, proved sorted and a permutation, and stable by id.
- Password hashing, JWT tokens, the random 2FA code, the email, the fetch and the browser APIs are left out. Their results are inputs to the model.

The source is followed where it differs from its description:

- Schedule generation uses every vaccine of the catalogue, inactive ones included, and is not atomic.
- A vaccination record may move from any status to any other.
- Posting slots for a day that already has a schedule replaces its slots and drops their bookings.
- Cancelling an unbooked slot is refused unless the caller booked it, owns the schedule or is an administrator.
- `deleteSchedule` refuses administrators who do not own the schedule.
- A vaccine's `totalDoses` is not checked against the records.

## Model

| member | source | states |
|---|---|---|
| Common.Trim | server/controllers/chatController.js:121 | `String.prototype.trim` with the ECMAScript white-space and line-terminator characters: the result is the input with a run of white space cut from each end, so it has none at either end, and it is empty exactly when the input is all white space |
| Common.TrimSlice | server/controllers/chatController.js:121 | trimming cuts only white space, and only from the two ends: the result is a slice of the input |
| Common.TrimIdempotent | server/controllers/chatController.js:121 | trimming twice is trimming once |
| Common.NatToStringRoundTrip | server/controllers/labResultController.js:104 | reading a rendered number's digits back gives the number |
| Common.NatToStringInjective | server/controllers/labResultController.js:104 | different numbers render differently |
| Common.Pad2 | client/src/pages/schedule/DoctorSchedulePage.jsx:107 | two digits, the tens then the units of the number |
| Common.Pad2RoundTrip | client/src/pages/schedule/DoctorSchedulePage.jsx:107 | the two padded digits read back as the number |
| Text.Split | client/src/contexts/LanguageContext.jsx:46 | at least one piece, none containing the separator |
| Text.JoinSplit | client/src/contexts/LanguageContext.jsx:46 | joining the pieces with the separator gives the string back |
| Text.SplitJoin | client/src/contexts/LanguageContext.jsx:46 | pieces free of the separator, joined, split back into themselves |
| Text.Lower | client/src/pages/patients/PatientsList.jsx:55-56 | same length, each letter A-Z lowered and every other character kept |
| Text.IncludesEmpty | client/src/pages/patients/PatientsList.jsx:55-56 | the empty search text is inside every string |
| Time.Midnight | server/controllers/scheduleController.js:79 | the start of the day containing the instant: at or before it, less than a day before, on a day boundary |
| Time.MidnightIdempotent | server/controllers/scheduleController.js:79 | taking midnight twice is taking it once |
| Time.MidnightSameDay | server/controllers/scheduleController.js:78-85 | two instants of the same day have the same midnight |
| Time.AddMonths | server/controllers/childController.js:81-82 | adding no months keeps the date, adding some moves it later |
| Time.AddMonthsMonotone | server/controllers/childController.js:81-82 | more months give a date no earlier |
| Sorting.SortBy | server/controllers/childController.js:18 | a sort keeps length and multiset of elements |
| Sorting.SortBySorted | server/controllers/childController.js:18 | with a total preorder as key order, the result is sorted |
| Sorting.SortByMembers | server/controllers/childController.js:18 | sorting keeps exactly the elements it was given |
| Sorting.StrLeTotal | server/controllers/appointmentController.js:216 | the string order used by sorts on string fields relates any two strings one way or the other |
| Sorting.StrLeTransitive | server/controllers/appointmentController.js:216 | the string order used by sorts on string fields is transitive |
| AnnouncementModel.DefaultAnnouncement | server/models/Announcement.js:16-47 | an announcement created without the optional fields is of type info, medium priority, active, not pinned, for all audiences, without expiry, and written by the given author |
| AnnouncementModel.ExpiryCases | server/models/Announcement.js:56-59 | `isExpired` is false without an expiry date, and otherwise holds exactly when the current time is past it |
| AnnouncementController.LiveVersusExpired | server/controllers/announcementController.js:11-17 | a listed announcement is never expired; an active, unexpired announcement is left out of the list exactly at the instant its expiry equals the current time |
| AnnouncementController.PriorityStringOrder | server/controllers/announcementController.js:29 | the priority sort compares the stored strings, so it orders high < low < medium < urgent rather than by urgency |
| AnnouncementController.PrecedesByRank | server/controllers/announcementController.js:29 | the sort `{isPinned: -1, priority: -1, createdAt: -1}` is the lexicographic order on pinned, string rank of the priority and creation time, each descending |
| AnnouncementController.PrecedesIsTotalPreorder | server/controllers/announcementController.js:29 | that sort order is total and transitive, so sorting by it is well defined |
| AnnouncementController.ActiveOrder | server/controllers/announcementController.js:27-29 | in the sorted list every pinned announcement precedes every unpinned one, and among equally pinned ones urgent, medium, low, high follow in that order |
| AnnouncementController.GetActiveAnnouncements | server/controllers/announcementController.js:6-31 | the result holds exactly the stored announcements that are active, unexpired and addressed to the caller's role (parents: all or parents; doctors: all or doctors; admins: every audience), sorted by that order |
| AnnouncementController.GetAllAnnouncements | server/controllers/announcementController.js:41-47 | an admin receives every stored announcement, newest first |
| AnnouncementController.NewAnnouncement | server/controllers/announcementController.js:59-70 | each field given in the body is stored as given, and each missing one takes its default (info, medium, all, no expiry, not pinned); the author is the caller |
| AnnouncementController.NewWithoutExpiryIsShown | server/controllers/announcementController.js:61-70 | a new announcement with neither expiry nor audience is listed for every role at every later time |
| AnnouncementController.CreateAnnouncement | server/controllers/announcementController.js:57-75 | exactly one announcement is added, under a fresh id, holding the stored form of the body; nothing else changes |
| AnnouncementController.ApplyPatch | server/controllers/announcementController.js:88-94 | every field present in the update replaces the stored one, the author included, and every absent field is kept; the creation time never changes |
| AnnouncementController.PatchLaws | server/controllers/announcementController.js:88-94 | an empty update changes nothing, and applying the same update twice is applying it once |
| AnnouncementController.UpdateAnnouncement | server/controllers/announcementController.js:85-100 | an unknown id answers 404 and changes nothing; otherwise only that announcement is replaced by its updated form |
| AnnouncementController.ToggleAnnouncement | server/controllers/announcementController.js:130-143 | an unknown id answers 404; otherwise only that announcement's `isActive` flips, and the new value is returned |
| AnnouncementController.DeleteAnnouncement | server/controllers/announcementController.js:110-120 | an unknown id answers 404 and changes nothing; otherwise exactly that announcement is removed |
| AppointmentController.ParseStatus | server/models/Appointment.js:26-30 | a status string is accepted exactly when it names one of the five statuses, and it is read back as that status |
| AppointmentController.ParseType | server/models/Appointment.js:31-35 | a type string is accepted exactly when it is absent or one of vaccination, checkup, consultation; an absent one means vaccination, and an accepted one is the type it names |
| AppointmentController.TimeLeIsTotalPreorder | server/controllers/appointmentController.js:216 | the order by time string is total and transitive |
| AppointmentController.GetAppointments | server/controllers/appointmentController.js:8-25 | the result holds exactly the stored appointments the caller may see (a parent's own, a doctor's assigned ones, all of them for an admin), latest scheduled date first |
| AppointmentController.VisibilityByRole | server/controllers/appointmentController.js:12-16 | no appointment is visible to two different parents, an admin sees every appointment, and a doctor sees exactly those assigned to them |
| AppointmentController.GetAppointment | server/controllers/appointmentController.js:35-47 | a stored id gives that appointment, whoever asks; any other id gives 404 |
| AppointmentController.GetPendingAppointments | server/controllers/appointmentController.js:184-192 | the result holds exactly the pending appointments, earliest scheduled date first |
| AppointmentController.TodayIsSameDay | server/controllers/appointmentController.js:204-210 | the window from today 00:00 up to tomorrow 00:00 holds exactly the instants of the current day |
| AppointmentController.GetTodayAppointments | server/controllers/appointmentController.js:202-218 | the result holds exactly the confirmed appointments scheduled today, ordered by their time string |
| AppointmentController.NewAppointment | server/controllers/appointmentController.js:67-76 | the request is stored exactly when it has a date, a time and a valid or absent type (otherwise 500); the stored appointment is pending, has the caller as parent and no doctor, keeps the request's child, date, time and vaccines, has the type the request names, and has its notes trimmed, or none when none were given |
| AppointmentController.CreateAppointment | server/controllers/appointmentController.js:57-82 | a child that is missing or not the caller's gives 403 and changes nothing; otherwise exactly the appointment `NewAppointment` builds is added under a fresh id, or 500 with no change |
| AppointmentController.ApplyUpdate | server/controllers/appointmentController.js:103-114 | each non-empty field of the update replaces the stored one and the others are kept; a given rejection reason or notes is stored trimmed; a doctor becomes the doctor of an appointment without one; a status outside the enum makes the save fail with 500 |
| AppointmentController.AnyStatusChange | server/controllers/appointmentController.js:104 | an update may set any status, whatever the current one |
| AppointmentController.NoticeFor | server/controllers/appointmentController.js:117-131 | the parent is notified exactly for the statuses confirmed, rejected and completed, and the notice is an alert exactly for a rejection |
| AppointmentController.NoticeForDecisions | server/controllers/appointmentController.js:120-129 | of the five statuses, exactly the three decisions send a notice |
| AppointmentController.UpdateAppointment | server/controllers/appointmentController.js:92-148 | an unknown id gives 404 and a status outside the enum gives 500, both with no change; otherwise the updated appointment is saved, and a decision adds exactly one notification for the parent, unless the child is gone, which gives 500 after the save |
| AppointmentController.DeleteAppointment | server/controllers/appointmentController.js:158-174 | an unknown id gives 404, and a parent cancelling another parent's appointment gives 403; otherwise the appointment stays stored with status cancelled and nothing else changes |
| UserModel.ParseRole | server/models/User.js:26-30 | a role string is accepted exactly when it names parent, doctor or admin, and it is read back as that role |
| UserModel.ActiveDoctors | server/controllers/chatController.js:200-206 | the result holds exactly the stored accounts that are active doctors |
| AuthController.FindByEmail | server/controllers/authController.js:20 | the e-mail is cast as the schema casts it (lower case, trimmed); the account found has the cast e-mail and no account with a smaller id has it; nothing is found exactly when no account has it |
| AuthController.EmailKey | server/models/User.js:5-10 | the stored form of an e-mail has no upper-case letter, is no longer than the input, and is empty exactly when the input is blank |
| AuthController.FindByKey | server/controllers/authController.js:20 | the first account, by id, whose stored e-mail is the key; none exactly when no account has it |
| AuthController.NewUser | server/controllers/authController.js:26-33 | the new account has the requested role, or parent when none is given (a role outside the enum gives 500); a trimmed specialty only for a doctor; the e-mail lower-cased and trimmed, the name and phone trimmed; the hashed password; it is active, has two-factor off and no address |
| AuthController.Register | server/controllers/authController.js:15-43 | an e-mail already in use gives 400, an invalid role 500, both with no change; otherwise exactly the new account is added under a fresh id |
| AuthController.Authenticate | server/controllers/authController.js:58-72 | an unknown e-mail and a wrong password both give 401; a correct password on a deactivated account gives 403; otherwise the account whose stored e-mail is the given one lower-cased and trimmed, which is active and whose password matches |
| AuthController.Issue | server/controllers/authController.js:77-79 | issuing stores the given code with an expiry ten minutes after now, and changes nothing else in the account |
| AuthController.Login | server/controllers/authController.js:53-102 | past the gate, an account with two-factor on stores a fresh code and gets no token; any other account gets its token and is left unchanged; a refusal changes nothing |
| AuthController.Check2FA | server/controllers/authController.js:122-132 | a code different from the stored one is wrong; an equal code whose expiry lies before now is expired; otherwise the code is accepted, and the code and expiry are cleared while the rest of the account stays as it was |
| AuthController.IssuedCodeWindow | server/controllers/authController.js:77-79 | a code issued at time t is accepted exactly until t plus ten minutes, and any other code is wrong |
| AuthController.CodeWorksOnce | server/controllers/authController.js:130-133 | once a code has been accepted, submitting it again is wrong |
| AuthController.NoPendingCodePasses | server/controllers/authController.js:122-128 | for an account with no pending code, a request without a code is accepted at any time |
| AuthController.ResendReplaces | server/controllers/authController.js:164-167 | resending replaces the code and restarts its window, so an earlier code is then wrong |
| AuthController.Check2FACorrected | server/controllers/authController.js:122-132 | corrected check: wrong unless a code is pending and equals the one submitted; expired when that code's expiry lies before now; otherwise accepted with code and expiry cleared |
| AuthController.NoPendingCodeRefused | server/controllers/authController.js:122-128 | without a pending code the corrected check refuses every submission, while the check as written accepts a request without a code |
| AuthController.CorrectedAgreesWhenPending | server/controllers/authController.js:122-132 | while a code is pending, the corrected check gives the verdict of the check as written |
| AuthController.Verify2FACorrected | server/controllers/authController.js:112-144 | with the corrected check: 404 for an unknown account, 401 with no change on refusal, and a token only for the code pending on that account, which is then cleared |
| AuthController.Verify2FA | server/controllers/authController.js:112-144 | an unknown account gives 404, and a wrong or expired code gives 401, both with no change; on success exactly that account has its code cleared |
| AuthController.Resend2FACode | server/controllers/authController.js:154-172 | an unknown account gives 404 with no change; otherwise exactly that account gets a fresh code and window |
| AuthController.Toggle2FA | server/controllers/authController.js:182-199 | the caller's two-factor flag flips and the new value is returned; a missing account gives 500 with no change |
| AuthController.ApplyProfile | server/controllers/authController.js:226-233 | a non-empty name, phone or address replaces the stored one, trimmed, and an empty one keeps it; a non-empty password is hashed; nothing else changes |
| AuthController.ProfileCannotClear | server/controllers/authController.js:227-229 | an empty value never clears a stored name, phone or address, and neither does any value with a non-space character; a phone or address of white space only clears it |
| AuthController.UpdateProfile | server/controllers/authController.js:222-247 | a missing account gives 404 with no change; otherwise only the caller's account is changed, as `ApplyProfile` says |
| AuthController.NameLeIsTotalPreorder | server/controllers/authController.js:261 | the order by name is total and transitive |
| AuthController.GetDoctors | server/controllers/authController.js:257-262 | the result holds exactly the doctor accounts, active or not, sorted by name |
| AuthController.GetAllUsers | server/controllers/authController.js:272-277 | an admin receives every account, newest first |
| AuthController.ApplyUserUpdate | server/controllers/authController.js:297-302 | an admin changing their own role gives 400; a role outside the enum gives 500; an empty role keeps the current one, and the active flag changes only when a boolean was sent; nothing else changes |
| AuthController.UpdateUser | server/controllers/authController.js:287-312 | an unknown account gives 404; any refusal changes nothing; on success exactly that account is replaced by its updated form |
| AuthController.ToggleUserActive | server/controllers/authController.js:322-343 | an unknown account gives 404, and toggling oneself gives 400, both with no change; otherwise exactly that account's active flag flips |
| ChatModel.CountOf | server/controllers/chatController.js:137 | a participant without an entry in the counter map counts 0, one with an entry counts that entry |
| ChatModel.UnreadOf | server/controllers/chatController.js:19 | a user's unread count in a conversation is the stored counter, or 0 when the user has none |
| ChatController.Mine | server/controllers/chatController.js:10-12 | exactly the stored conversations the user takes part in |
| ChatController.WithUnread | server/controllers/chatController.js:18-24 | one entry per conversation, in the same order, each carrying the caller's own unread count |
| ChatController.WithUnreadMembers | server/controllers/chatController.js:18-24 | an entry is in the result exactly when its conversation is in the input and its count is the caller's unread count there |
| ChatController.GetConversations | server/controllers/chatController.js:8-26 | exactly the caller's conversations, each with the caller's unread count (0 without an entry), ordered by latest message first |
| ChatController.Newest | server/controllers/chatController.js:55-57 | exactly the stored messages of the conversation, newest first |
| ChatController.Window | server/controllers/chatController.js:58-59 | skip-then-limit: at most `limit` elements (no bound for 0), each the element `skip` places further on in the list, and as many as the list still has |
| ChatController.Page | server/controllers/chatController.js:55-75 | a negative skip (page 0 or below) gives 500; otherwise at most `limit` messages of the conversation, oldest first |
| ChatController.ReversedWindow | server/controllers/chatController.js:75 | a window of a newest-first list, reversed, is oldest first and holds only messages of the list |
| ChatController.ReversedNewest | server/controllers/chatController.js:75 | reversing a newest-first list gives an oldest-first list of the same messages |
| ChatController.PageIs | server/controllers/chatController.js:55-75 | a served page is the reversed window of the newest-first list at offset (page - 1) * limit |
| ChatController.WindowIndex | server/controllers/chatController.js:58-59 | every message of a page sits in the newest-first list at a position between the skip and the skip plus the limit |
| ChatController.SkipsApart | server/controllers/chatController.js:58 | page p skips a non-negative number of messages, and a later page skips at least a whole page further |
| ChatController.FloorBounds | server/controllers/chatController.js:58-59 | position i of the list falls inside the window of page i / limit + 1 |
| ChatController.PageHolds | server/controllers/chatController.js:55-59 | with a positive limit, the i-th newest message is served on page i / limit + 1: every message is on some page |
| ChatController.EarlierPagesNewer | server/controllers/chatController.js:55-75 | nothing on a later page is newer than anything on an earlier page |
| ChatController.MarkRead | server/controllers/chatController.js:62-69 | afterwards no message of the conversation sent by someone else lacks the reader in readBy; those messages get the reader added once, every other message is unchanged |
| ChatController.MarkReadIdempotent | server/controllers/chatController.js:62-69 | marking twice is marking once, and no other user's read state changes |
| ChatController.GetMessages | server/controllers/chatController.js:36-75 | unknown conversation 404, non-participant 403, both with no change; otherwise the page of the state before the call, then the conversation's messages marked read and the caller's counter set to 0, nothing else changed |
| ChatController.ReadResetsOnlyReader | server/controllers/chatController.js:72 | reading clears the reader's counter and leaves everyone else's |
| ChatController.Compose | server/controllers/chatController.js:88-126 | 400 exactly for a text message (the default type) with missing or blank content, or a voice message without audio data; a text message stores the trimmed content and no audio, a voice message the audio with duration 0 by default and the fallback text, a system message neither; the sender has read it |
| ChatController.OccOfDistinct | server/controllers/chatController.js:135-140 | in a participant list without repeats a participant occurs once and anybody else never |
| ChatController.RaiseUnread | server/controllers/chatController.js:135-140 | each occurrence of a participant other than the sender raises that participant's counter by one, starting from 0 without an entry; no other counter changes |
| ChatController.SendRaisesOthersByOne | server/controllers/chatController.js:135-140 | for a list without repeats, every other participant's count goes up by exactly one and the sender's and outsiders' stay |
| ChatController.SendMessage | server/controllers/chatController.js:85-147 | an invalid body 400 before anything else, then unknown conversation 404, non-participant 403, all with no change; otherwise the composed message stored under a fresh id, the conversation's last message and time set, every other participant's counter raised, nothing else changed |
| ChatController.NoUnreadIffAllRead | server/controllers/chatController.js:223-226 | the total is 0 exactly when no conversation has anything unread for the user |
| ChatController.GetUnreadCount | server/controllers/chatController.js:217-228 | the sum of the caller's counters over the conversations the caller takes part in |
| ChatController.FindBetween | server/controllers/chatController.js:176 | a conversation found has both users as participants; none is found exactly when no stored conversation has both |
| ChatController.StartConversation | server/controllers/chatController.js:157-190 | no recipient or oneself 400, unknown user 404, both with no change; an existing conversation between the two is returned unchanged; otherwise exactly one new conversation of the two, without counters, under a fresh id |
| ChildModel.ParseGender | server/models/Child.js:13-17 | a gender is accepted exactly when it is "male" or "female" |
| ChildModel.GenderRoundTrip | server/models/Child.js:13-17 | a gender written out is read back as itself, and an accepted string is the name of the gender it is read as |
| ChildModel.ParseBloodType | server/models/Child.js:23-26 | an accepted blood type is read as the group whose name is that string |
| ChildModel.BloodTypeRoundTrip | server/models/Child.js:23-26 | every group of the enum, the empty one included, is read back from its name |
| ChildModel.NewChild | server/models/Child.js:35-38 | a new child is active, with the given parent, birth date and creation time |
| ChildModel.AgeSign | server/models/Child.js:44-49 | the age in months is negative exactly when today's month is before the birth month, and 0 exactly in the birth month |
| ChildModel.AgeNextMonth | server/models/Child.js:44-49 | each calendar month adds exactly one to the age, across a year end too |
| ChildController.DoseFacts | server/controllers/childController.js:80-90 | the record for dose i of a vaccine has dose number i + 1, is due the i-th recommended age in months after birth, is delayed exactly when that date is already past and scheduled otherwise, with no doctor and no administration date |
| ChildController.DosesOf | server/controllers/childController.js:80-92 | a vaccine contributes one record per recommended age, in order |
| ChildController.Schedule | server/controllers/childController.js:79-93 | the calendar has as many records as the vaccines prescribe doses in total |
| ChildController.SchedulePrefix | server/controllers/childController.js:79-93 | the calendar of the first vaccines is the start of the whole calendar |
| ChildController.ScheduleAt | server/controllers/childController.js:79-93 | dose i of the j-th vaccine sits at the position counting the doses of the vaccines before it, plus i |
| ChildController.ScheduleCovers | server/controllers/childController.js:79-93 | every record of the calendar is dose i of some vaccine j of the catalog, at exactly that position |
| ChildController.AgesTotalIsTotalAges | server/controllers/childController.js:79-80 | the number of records generated equals the total count of recommended ages of the catalog's vaccines |
| ChildController.SeededEnrolment | server/controllers/childController.js:74-93 | a child enrolled against the seeded national catalog gets exactly eighteen records |
| ChildController.ValidateChild | server/controllers/childController.js:61-71 | the child is created exactly when the name is not blank, a birth date is given, the gender is in the enum and any blood type is in the enum; otherwise 500; the stored child is active, has the caller as parent and the trimmed name |
| ChildController.InsertDoses | server/controllers/childController.js:80-92 | the inner loop appends the vaccine's doses in order until the failing insert, and completes exactly when all of them are inserted |
| ChildController.GenerateSchedule | server/controllers/childController.js:79-93 | the records created are a prefix of the full calendar; their number is the full count unless an insert fails first, in which case it is the position of the failure |
| ChildController.Enrol | server/controllers/childController.js:63-102 | the child is stored under a fresh id and then its calendar, up to any failing insert, under the following ids; the answer is the child with the record count when every insert succeeds and 500 otherwise, with the records already made left in place |
| ChildController.CreateChild | server/controllers/childController.js:59-106 | a form failing validation gives 500 and changes nothing; otherwise the effect of enrolling the validated child, which keeps a partial calendar when an insert fails |
| ChildController.GetChildren | server/controllers/childController.js:8-20 | exactly the children the caller may see (a parent only their own, other roles all), newest first |
| ChildController.GetChild | server/controllers/childController.js:30-49 | unknown id 404; for a parent, 500 when the child's parent account is gone and 403 for someone else's child; otherwise the child with exactly its records, earliest first |
| ChildController.ApplyChildPatch | server/controllers/childController.js:125-128 | the patch succeeds exactly when any given name is not blank and any given gender and blood type are in their enums (otherwise 500); a successful patch stores the given name, allergies and notes trimmed, and the given birth date, gender, blood type and activity as sent; fields not given keep their values, the parent may be reassigned |
| ChildController.EmptyChildPatchKeeps | server/controllers/childController.js:125-128 | an empty body leaves the child as it was |
| ChildController.UpdateChild | server/controllers/childController.js:112-130 | unknown id 404, another parent's child 403, both with no change; otherwise the patched child is stored and returned, and a patch failing validation changes nothing |
| ChildController.WithoutChild | server/controllers/childController.js:153 | exactly the records of other children remain, unchanged |
| ChildController.DeleteChild | server/controllers/childController.js:140-156 | unknown id 404, another parent's child 403, both with no change; otherwise the child and every record of it are removed and nothing else |
| ChildController.DeleteLeavesNothing | server/controllers/childController.js:153-154 | after the delete the child is not found and has no records, while every other child keeps all of its records |
| LabResultController.Stripped | server/controllers/labResultController.js:30-34 | a listed result carries no file contents |
| LabResultController.StrippedKeepsTheRest | server/controllers/labResultController.js:30-34 | stripping removes only the file contents: putting them back gives the stored result, and stripping twice is stripping once |
| LabResultController.StripAll | server/controllers/labResultController.js:30-34 | the listing has one entry per result, in the same order, each stripped |
| LabResultController.OfChild | server/controllers/labResultController.js:24-27 | exactly the child's stored results, most recent test first |
| LabResultController.StripAllSorted | server/controllers/labResultController.js:27-34 | stripping keeps the most-recent-test-first order |
| LabResultController.StripAllMembers | server/controllers/labResultController.js:24-34 | the stripped listing holds every result of the child, stripped, and nothing else |
| LabResultController.GetLabResultsByChild | server/controllers/labResultController.js:9-36 | unknown child 404, a parent of another child 403; otherwise exactly the child's results, most recent test first, none with file contents |
| LabResultController.GetLabResult | server/controllers/labResultController.js:46-65 | unknown result 404; for a parent, 500 when the child is gone and 403 for another parent's child; otherwise the whole stored result, file contents included |
| LabResultController.FilePath | server/controllers/labResultController.js:104 | the path is "uploads/", the child id, "/" and the file name |
| LabResultController.FilePathDetermines | server/controllers/labResultController.js:104 | the child and the file name are both recovered from the path, so two uploads share a path only for the same child and file name |
| LabResultController.NewLabResult | server/controllers/labResultController.js:79-107 | 400 exactly when the child, title, test date or file contents are missing; otherwise the given fields, test type "other" by default, the path under the child, status pending and no review |
| LabResultController.UploadLabResult | server/controllers/labResultController.js:75-112 | missing fields 400, unknown child 404, a parent of another child 403, all with no change; otherwise exactly the new result is stored under a fresh id |
| LabResultController.Review | server/controllers/labResultController.js:137-143 | a given status replaces the old one, given comments (even empty ones) replace the old ones, a given status other than pending records the reviewer and the time, and no other field changes |
| LabResultController.BackToPendingKeepsReviewer | server/controllers/labResultController.js:137-143 | setting the status back to pending keeps the earlier reviewer |
| LabResultController.UpdateLabResult | server/controllers/labResultController.js:122-151 | unknown result 404, a caller who is neither doctor nor admin 403, both with no change; otherwise the reviewed result is stored and returned |
| LabResultController.DeleteLabResult | server/controllers/labResultController.js:161-177 | unknown result 404, a caller who is neither admin nor the uploader 403, both with no change; otherwise exactly that result is removed |
| NoteController.GetNotesByChild | server/controllers/noteController.js:7-27 | unknown child 404; otherwise exactly the child's notes, narrowed to the caller's own for a doctor, newest first, so a doctor never sees a colleague's note |
| NoteController.NewNote | server/controllers/noteController.js:41-57 | 400 exactly when the content is missing or blank; otherwise the trimmed, non-empty content, the category or "general", private, written by the caller |
| NoteController.NewNoteIsTrimmed | server/controllers/noteController.js:53 | the content of a stored note has no white space left to trim |
| NoteController.CreateNote | server/controllers/noteController.js:37-62 | blank content 400 before the child is looked up, unknown child 404, both with no change; otherwise exactly the new note is stored under a fresh id |
| NoteController.CreatedNoteListed | server/controllers/noteController.js:18-25 | a stored note is in the child's listing for its author and for every admin |
| NoteController.EditNote | server/controllers/noteController.js:87-88 | non-empty content is trimmed and replaces the old content, a given category the old one; author, child, privacy and creation time stay |
| NoteController.EditNoteLaws | server/controllers/noteController.js:87-88 | an edit without fields keeps the note, and repeating an edit changes nothing more |
| NoteController.UpdateNote | server/controllers/noteController.js:72-95 | unknown note 404, anybody but its author (admins included) 403, both with no change; otherwise the edited note is stored and returned |
| NoteController.DeleteNote | server/controllers/noteController.js:105-121 | unknown note 404, a caller who is neither admin nor author 403, both with no change; otherwise exactly that note is removed |
| NotificationModel.NewNotification | server/models/Notification.js:24-27 | a new notification is unread, for the given user, of the given type, created now |
| NotificationController.Own | server/controllers/notificationController.js:8-11 | exactly the user's notifications, newest first |
| NotificationController.GetNotifications | server/controllers/notificationController.js:6-19 | the first fifty of the caller's notifications newest first, or all of them when there are no more than fifty; the unread count is over all of the caller's notifications |
| NotificationController.MarkAsRead | server/controllers/notificationController.js:29-44 | unknown notification 404, someone else's 403, both with no change; otherwise exactly that notification becomes read |
| NotificationController.MarkAllRead | server/controllers/notificationController.js:56-59 | every notification of the user is read afterwards, every other one unchanged |
| NotificationController.MarkAllLeavesNoneUnread | server/controllers/notificationController.js:56-59 | after marking all, the user's unread count is 0, and marking again changes nothing |
| NotificationController.MarkAllAsRead | server/controllers/notificationController.js:54-61 | the new store is the old one with all of the caller's notifications read |
| NotificationController.DeleteNotification | server/controllers/notificationController.js:71-85 | unknown notification 404, someone else's 403, both with no change; otherwise exactly that notification is removed |
| ScheduleModel.NewSlot | server/models/DoctorSchedule.js:3-20 | a new slot has the given id and times, is not booked and names nobody, so it is consistent |
| ScheduleModel.NewSchedule | server/models/DoctorSchedule.js:22-36 | a new schedule is available by default, for the given doctor, date and slots |
| ScheduleModel.FreeSlots | server/models/DoctorSchedule.js:58 | exactly the unbooked slots, in stored order |
| ScheduleModel.UniqueDaysInsert | server/models/DoctorSchedule.js:46 | storing a schedule for a doctor and day nobody holds keeps the one-schedule-per-doctor-per-day index |
| ScheduleModel.UniqueDaysReplace | server/models/DoctorSchedule.js:46 | rewriting a schedule without changing its doctor or day keeps the index |
| ScheduleModel.FindAvailable | server/models/DoctorSchedule.js:50-54 | a schedule found is stored, of that doctor and date, and available, and no earlier entry is; none is found exactly when no such schedule exists |
| ScheduleModel.GetAvailableSlots | server/models/DoctorSchedule.js:49-59 | no available schedule of the doctor on that day (taken to midnight) gives no slots; otherwise exactly the free slots of the first such schedule, in stored order |
| ScheduleModel.AvailableSlotsOfTheDay | server/models/DoctorSchedule.js:46-59 | with one schedule per doctor per day, the slots given are exactly the free slots of that day's available schedule, and every free slot of it is given |
| ScheduleController.MakeSlots | server/controllers/scheduleController.js:89-98 | one slot per body entry, in order, under consecutive fresh ids, with the entry's times, booked flag (false when absent) and booker as given; an entry of times only gives a new free slot; the slots are consistent exactly when each entry's flag agrees with its booker, and with no entry marked booked all of them are free |
| ScheduleController.BookedBodyWithoutBooker | server/controllers/scheduleController.js:89-98 | a body slot marked booked without a booker is stored booked by nobody, which breaks the slot consistency the store otherwise keeps |
| ScheduleController.AllFree | server/models/DoctorSchedule.js:58 | a list of unbooked slots is its own free list |
| ScheduleController.FindDay | server/controllers/scheduleController.js:82-85 | a schedule found is the caller's for that date; none is found exactly when the caller has no schedule that day |
| ScheduleController.Replan | server/controllers/scheduleController.js:89-91 | given slots, availability and notes replace the old ones, absent ones are kept; doctor and date stay |
| ScheduleController.Fresh | server/controllers/scheduleController.js:95-101 | a new schedule has the given slots or none, is available unless told otherwise, and has the notes or "" |
| ScheduleController.RepostDropsBookings | server/controllers/scheduleController.js:89 | re-posting a day's slots from the editor, times only, leaves every slot free and unbooked, dropping the bookings the day held |
| ScheduleController.EmptyRepostKeeps | server/controllers/scheduleController.js:89-91 | a re-post with no field given changes nothing |
| ScheduleController.CreateOrUpdateSchedule | server/controllers/scheduleController.js:70-108 | no date 400 with no change; otherwise the caller's schedule for that day (taken to midnight) is re-planned when it exists, or exactly one new schedule is stored; the result is the caller's schedule for that day; stored slots stay consistent when the body's slots are |
| ScheduleController.AppendedFree | server/controllers/scheduleController.js:133 | the free list of the appended slots is the old free list followed by the new one |
| ScheduleController.AddSlots | server/controllers/scheduleController.js:118-136 | unknown schedule 404, another doctor's 403, no slots in the body 500, all with no change; otherwise the body's slots follow the existing ones unchanged; stored slots stay consistent when the body's slots are |
| ScheduleController.HasBookingsIffFewerFree | server/controllers/scheduleController.js:161 | a schedule has a booking exactly when its free list is shorter than its slots |
| ScheduleController.DeleteSchedule | server/controllers/scheduleController.js:146-169 | unknown schedule 404, anybody but its doctor 403, a booked slot 400, all with no change; otherwise exactly that schedule is removed; slot consistency is kept |
| ScheduleController.FindSlot | server/controllers/scheduleController.js:238 | the position of the first slot with the id; none exactly when no slot has it |
| ScheduleController.BookAt | server/controllers/scheduleController.js:248-249 | only that slot changes: it becomes booked by the caller with its id and times kept; consistency is preserved |
| ScheduleController.CancelAt | server/controllers/scheduleController.js:291-292 | only that slot changes: it becomes free and names nobody, with its id and times kept; consistency is preserved |
| ScheduleController.CancelUndoesBook | server/controllers/scheduleController.js:283-292 | the booker may always cancel, and cancelling a booking restores the slots as they were before it |
| ScheduleController.StrangerCannotCancel | server/controllers/scheduleController.js:283-285 | a parent who neither booked the slot nor owns the schedule may not cancel it |
| ScheduleController.BookSlot | server/controllers/scheduleController.js:228-256 | unknown schedule or slot 404, a booked slot 400, all with no change; otherwise exactly that slot is booked by the caller; slot consistency is kept |
| ScheduleController.CancelBooking | server/controllers/scheduleController.js:266-295 | unknown schedule or slot 404, a caller who is not booker, doctor or admin 403, all with no change; otherwise exactly that slot is freed, booked or not; slot consistency is kept |
| ScheduleController.DayOf | server/controllers/scheduleController.js:192-201 | a schedule found is the doctor's available one of the day; none exactly when the doctor has none |
| ScheduleController.ViewOf | server/controllers/scheduleController.js:209-214 | the summary holds the schedule's id and date, its free slots and its slot count |
| ScheduleController.EntryFor | server/controllers/scheduleController.js:198-215 | a doctor's entry is null exactly when the doctor has no available schedule that day, otherwise the summary of one |
| ScheduleController.GetAvailableDoctors | server/controllers/scheduleController.js:179-218 | one entry per active doctor, in natural order, for the given day or today, taken to midnight |
| ScheduleController.AvailableDoctorsListed | server/controllers/scheduleController.js:186-198 | a user has an entry exactly when the user is an active doctor |
| ScheduleController.AvailableDoctorDay | server/controllers/scheduleController.js:192-215 | an entry's day is null exactly when no available schedule of that doctor is stored for the day; otherwise it is such a schedule's free slots and slot count |
| ScheduleController.AvailableDayIsTheDay | server/controllers/scheduleController.js:192-215 | with one schedule per doctor per day, the day shown is that doctor's only schedule of the day |
| ScheduleController.DoctorRange | server/controllers/scheduleController.js:14-21 | both bounds when both are given, the start alone when only it is given, no bound otherwise (an end alone is ignored) |
| ScheduleController.MyRange | server/controllers/scheduleController.js:41-54 | both bounds when both are given, otherwise from today's midnight on |
| ScheduleController.SchedulesIn | server/controllers/scheduleController.js:23-26 | exactly the doctor's schedules within the range, earliest day first |
| ScheduleController.GetDoctorSchedule | server/controllers/scheduleController.js:7-28 | exactly the doctor's schedules from the start date and, when both are given, up to the end date, earliest day first |
| ScheduleController.GetMySchedule | server/controllers/scheduleController.js:38-60 | exactly the caller's schedules within the given bounds, or from today's midnight on when not both are given, earliest day first |
| SideEffectController.Selected | server/controllers/sideEffectController.js:60-64 | exactly the stored reports the filter keeps, newest first |
| SideEffectController.GetSideEffectsByChild | server/controllers/sideEffectController.js:58-66 | exactly the child's reports, newest first, for any signed-in caller |
| SideEffectController.GetAllSideEffects | server/controllers/sideEffectController.js:76-91 | exactly the reports with the given status, or all of them without one, newest first |
| SideEffectController.FilterNarrows | server/controllers/sideEffectController.js:78-81 | without a status every report is listed, and each filtered listing is part of the full one |
| SideEffectController.NewReport | server/controllers/sideEffectController.js:22-32 | the stored report carries the form's fields, mild severity by default, the caller as reporter, status pending and no review |
| SideEffectController.AlertFor | server/controllers/sideEffectController.js:39-45 | the alert goes, unread, to that doctor, has the alert type and names the child |
| SideEffectController.AlertsFromAt | server/controllers/sideEffectController.js:38-46 | the alerts are stored under a consecutive run of ids, the i-th one to the i-th doctor |
| SideEffectController.AlertDoctors | server/controllers/sideEffectController.js:38-46 | the loop adds exactly one alert per doctor under consecutive fresh ids and nothing else |
| SideEffectController.AlertGoesToActiveDoctor | server/controllers/sideEffectController.js:36-45 | every alert a report sends goes, unread, to an active doctor and names the child |
| SideEffectController.ActiveDoctorAlerted | server/controllers/sideEffectController.js:36-45 | every active doctor gets an alert |
| SideEffectController.FileReport | server/controllers/sideEffectController.js:22-46 | the report is stored under a fresh id, then the alerts to the active doctors under the ids after it |
| SideEffectController.ReportSideEffect | server/controllers/sideEffectController.js:8-48 | unknown child 404, another parent's child 403, both with no change; otherwise exactly the new report and the alerts to every active doctor are added |
| SideEffectController.ApplyReview | server/controllers/sideEffectController.js:110-116 | a given status and non-empty notes replace the old ones; reviewed or resolved records the reviewer and the time; no other field changes |
| SideEffectController.ReviewLaws | server/controllers/sideEffectController.js:110-116 | an empty review changes nothing, and a review repeated at the same time changes nothing more |
| SideEffectController.ReviewSideEffect | server/controllers/sideEffectController.js:101-132 | unknown report 404 with no change; otherwise the reviewed report is stored and returned, and when the child still exists its parent gets one confirmation |
| RecordModel.NewRecord | server/controllers/childController.js:84-90 | a generated record has the given child, vaccine, dose number, date and status, and no doctor, administration date, notes or batch number |
| RecordModel.DefaultRecord | server/models/VaccinationRecord.js:18-34 | the schema defaults: dose number 1 and status scheduled |
| VaccinationController.SortedEntries | server/controllers/vaccinationController.js:13 | sorting records keeps exactly the records and orders them |
| VaccinationController.RecordsOfChild | server/controllers/vaccinationController.js:8-15 | exactly the child's records, earliest scheduled first |
| VaccinationController.ApplyStatusEffect | server/controllers/vaccinationController.js:37-45 | the requested status is written over any current one with the caller as doctor; completion sets the administration date, to the given one or now, and nothing clears it; notes and batch number change only to a non-empty given value; child, vaccine, dose number and date stay |
| VaccinationController.AnyTransition | server/controllers/vaccinationController.js:37 | every status can be reached from every status, a completed dose back to scheduled included |
| VaccinationController.UpdateVaccinationStatus | server/controllers/vaccinationController.js:25-62 | unknown record 404 with no change; otherwise the updated record is saved; with its child and vaccine present the parent gets exactly one confirmation, and when either is gone the answer is 500 after the save with no notification |
| VaccinationController.OverdueList | server/controllers/vaccinationController.js:105-115 | exactly the scheduled or delayed records due before now, earliest first |
| VaccinationController.MarkDelayed | server/controllers/vaccinationController.js:118-121 | the scan applies the same per-record change to every record and keeps the ids |
| VaccinationController.MarkOnlyForward | server/controllers/vaccinationController.js:118-121 | completed, missed and cancelled records are untouched, nothing becomes scheduled, and only a past-due scheduled record changes, to delayed |
| VaccinationController.ScanIdempotent | server/controllers/vaccinationController.js:105-121 | a second scan at the same instant changes nothing |
| VaccinationController.ScanSettles | server/controllers/vaccinationController.js:105-121 | after a scan no record is still scheduled in the past, and a second scan lists the same records |
| VaccinationController.IdsOf | server/controllers/vaccinationController.js:119 | exactly the ids of the listed records |
| VaccinationController.SetDelayed | server/controllers/vaccinationController.js:118-121 | the update keeps every id of the store |
| VaccinationController.ListedIffOverdue | server/controllers/vaccinationController.js:105-119 | a record is listed by the scan exactly when it is overdue |
| VaccinationController.SetDelayedIsMark | server/controllers/vaccinationController.js:105-121 | updating the listed records is the same as marking every record |
| VaccinationController.GetDelayedVaccinations | server/controllers/vaccinationController.js:101-123 | the answer is the overdue records as they were before the update; afterwards the past-due scheduled ones are delayed and nothing else changed |
| VaccinationController.WindowSorted | server/controllers/vaccinationController.js:78-88 | exactly the scheduled records due between now and one month from now, both ends included, earliest first |
| VaccinationController.Upcoming | server/controllers/vaccinationController.js:72-91 | at most fifty records of that window, earliest first |
| VaccinationController.UpcomingEarliest | server/controllers/vaccinationController.js:88-89 | a record of the window left out means fifty were listed, none due later than it |
| VaccinationController.RoundPercent | server/controllers/vaccinationController.js:178 | the nearest integer to 100 c / t, halves rounded up; between 0 and 100 when c is at most t, and 100 when they are equal |
| VaccinationController.CompletionRate | server/controllers/vaccinationController.js:178 | between 0 and 100; 0 without completions; 100 when nothing is scheduled or delayed |
| VaccinationController.LastDayOfMonthMissed | server/controllers/vaccinationController.js:136-154 | a dose given on the last day of the month after midnight lies outside the window as written, though it is in that month |
| VaccinationController.MonthWindowContainsWritten | server/controllers/vaccinationController.js:136-154 | every dose the written window counts is in the whole-month window too |
| VaccinationController.MonthStart | server/controllers/vaccinationController.js:136 | the month's start is at or before the instant, and the instant is within the month |
| VaccinationController.GetStats | server/controllers/vaccinationController.js:133-179 | the three counts are the caller's scoped records with each status; the rate is the rounded percentage of completed among the three; the children counted are the active ones, and only the caller's own for a parent; the month's completions use the window as written; the rate lies between 0 and 100 and is 0 without completions |
| VaccinationController.CompletedInMonthAsWritten | server/controllers/vaccinationController.js:137-154 | as written, a dose administered after the first instant of the month's last day is outside the window |
| VaccinationController.CompletedInMonth | server/controllers/vaccinationController.js:136-154 | corrected: a dose is in the whole month exactly when it is in the window as written with the last instant before the next month as its end |
| VaccinationController.StatusCounts | server/controllers/vaccinationController.js:157-170 | the five statuses split the records: missed and cancelled ones are in none of the three counts |
| VaccineModel.NewVaccine | server/models/Vaccine.js:18-38 | a vaccine created without the defaulted fields has one dose and is mandatory and active, with the given name and ages |
| VaccineController.MinAge | server/controllers/vaccineController.js:8 | the smallest recommended age, which an ascending sort on the array field compares; none exactly for an empty list |
| VaccineController.AgeLeIsTotalPreorder | server/controllers/vaccineController.js:8 | the sort order by smallest age is total and transitive |
| VaccineController.ActiveVaccines | server/controllers/vaccineController.js:6-9 | exactly the active vaccines, ordered by their first recommended age |
| VaccineController.GetVaccine | server/controllers/vaccineController.js:19-25 | the stored vaccine, inactive or not, and 404 exactly for an unknown id |
| VaccineController.CreateVaccine | server/controllers/vaccineController.js:35-38 | exactly the body is stored under a fresh id, whatever its dose count |
| VaccineController.ApplyPatch | server/controllers/vaccineController.js:50-53 | each of the six fields (name, description, recommended ages, total doses, mandatory, active) takes the given value when one is given and keeps the stored one otherwise |
| VaccineController.EmptyPatchKeeps | server/controllers/vaccineController.js:50-53 | an empty body leaves the vaccine as it was |
| VaccineController.UpdateVaccine | server/controllers/vaccineController.js:48-59 | unknown id 404 with no change; otherwise the patched vaccine is stored and returned; the store invariant is kept |
| VaccineController.DeleteVaccine | server/controllers/vaccineController.js:69-80 | unknown id 404 with no change; otherwise only the vaccine's active flag is cleared |
| VaccineController.SoftDeleteHidesOnlyIt | server/controllers/vaccineController.js:69-80 | after the delete the vaccine is still found by id but no longer listed, and every other vaccine's listing is unchanged |
| VaccineController.TotalAgesAppend | server/controllers/vaccineController.js:92-142 | the dose count of two catalogs together is the sum of their counts |
| VaccineController.NationalCatalogFacts | server/controllers/vaccineController.js:92-142 | the national calendar has seven mandatory, active vaccines whose dose counts match their age lists, eighteen doses in all |
| VaccineController.SeedVaccines | server/controllers/vaccineController.js:90-147 | the catalog afterwards is exactly the national calendar under fresh ids, and the count reported is 7 |
| ChatPage.FormatDuration | client/src/pages/chat/ChatPage.jsx:247-251 | the label is the minutes, a colon, then two digits of seconds |
| ChatPage.DurationRoundTrip | client/src/pages/chat/ChatPage.jsx:247-251 | every character of the label except the colon is a digit, and reading the label as m:ss gives back exactly the seconds it was built from |
| ChatPage.DurationExamples | client/src/pages/chat/ChatPage.jsx:247-251 | 0 seconds shows as "0:00" and 65 seconds as "1:05" |
| ChatPage.DurationLabel | client/src/pages/chat/ChatPage.jsx:323 | a voice message with a duration of zero or less shows "0:00"; otherwise it shows the formatted duration |
| ChatPage.StartConversation | client/src/pages/chat/ChatPage.jsx:256 | the started conversation comes first; every other copy with its id is removed; the remaining conversations keep their relative order |
| ChatPage.StartKeepsIdsDistinct | client/src/pages/chat/ChatPage.jsx:256 | starting a conversation on a list with no repeated ids gives a list with no repeated ids |
| ChatPage.StartKeepsOthers | client/src/pages/chat/ChatPage.jsx:256 | every conversation with another id is kept as many times as it was listed |
| ChatPage.UnreadAsWritten | client/src/pages/chat/ChatPage.jsx:360 | as written, the count is found only in an object of per-user counters; a plain number, which is what the list endpoint sends, reads as 0 |
| ChatPage.Unread | client/src/pages/chat/ChatPage.jsx:360 | corrected: a plain number is read as the count itself; an object of per-user counters is read as before |
| ChatPage.ShowsBadge | client/src/pages/chat/ChatPage.jsx:384 | as written, the badge never shows for a count sent as a number; for an object it shows exactly when the user's entry is positive |
| ChatPage.ShowsBadgeCorrected | client/src/pages/chat/ChatPage.jsx:384 | corrected: agrees with the page for an object of counters, and otherwise shows for a positive count |
| ChatPage.ListedCountIgnoredAsWritten | client/src/pages/chat/ChatPage.jsx:360 | as written, a conversation fetched from the list endpoint reads 0 unread messages whatever count the server sent; a server count of 3 shows no badge |
| ChatPage.ListedBadgeIsServerCount | client/src/pages/chat/ChatPage.jsx:360-384 | with the corrected reading, a listed conversation shows exactly the caller's count from the list endpoint, and shows the badge exactly when that count is positive; as written it never shows the badge |
| ChatPage.IsSentByIds | client/src/pages/chat/ChatPage.jsx:425-427 | for non-empty ids, a message counts as the user's own exactly when its sender id equals the user's id, whether or not the sender was populated |
| ChatPage.IsSent | client/src/pages/chat/ChatPage.jsx:425-427 | a populated sender with an id, or a bare sender id, is the user's own exactly when it equals the user's id as a string; with no sender and no user both read as undefined and the message counts as own |
| ChatPage.TextRequestAsWritten | client/src/pages/chat/ChatPage.jsx:115 | as written, the text is wrapped in an object, which the request then nests under the body's content field |
| ChatPage.VoiceRequestAsWritten | client/src/pages/chat/ChatPage.jsx:229-233 | as written, the voice fields also end up nested in an object under content |
| ChatPage.TextRequest | client/src/pages/chat/ChatPage.jsx:115 | corrected: a POST whose body is only the text, under content |
| ChatPage.VoiceRequest | client/src/pages/chat/ChatPage.jsx:229-233 | corrected: a POST to the same path whose body holds the message type audio, the audio data and the duration |
| ChatPage.ServerReads | server/controllers/chatController.js:88-94 | how the server's send handler reads a body; every refusal is an internal error (500) |
| ChatPage.TextSendFailsAsWritten | server/controllers/chatController.js:88-94 | the request as written is refused with a 500 for every text |
| ChatPage.VoiceSendFailsAsWritten | server/controllers/chatController.js:88-94 | the voice request as written is refused with a 500 for every recording |
| ChatPage.TextSendAccepted | server/controllers/chatController.js:88-126 | with the corrected body, a text that is not blank is read as a text message and stored with its content trimmed |
| ChatPage.VoiceSendAccepted | server/controllers/chatController.js:88-126 | with the corrected body, a recording with audio data is stored as an audio message with its duration |
| ChatPage.Composer.constructor | client/src/pages/chat/ChatPage.jsx:16-18 | the message box starts empty and no send is in progress |
| ChatPage.Composer.Send | client/src/pages/chat/ChatPage.jsx:106-115 | as written: a blank draft, no open conversation, or a send already in progress sends nothing and changes nothing; otherwise the trimmed draft is sent wrapped in an object, the box is emptied and sending is marked in progress |
| ChatPage.Composer.SendCorrected | client/src/pages/chat/ChatPage.jsx:106-115 | corrected: refuses the same drafts, and otherwise sends the trimmed draft as the body's own content, with the same new state |
| ChatPage.Composer.SendVoice | client/src/pages/chat/ChatPage.jsx:221-233 | without an open conversation nothing is sent; otherwise the send button is locked and the recording is sent as written, even while another send is in progress |
| ChatPage.Composer.VoiceSettled | client/src/pages/chat/ChatPage.jsx:221-243 | as written, only a successful voice send frees the send button; after a failure it stays as it was, locked |
| ChatPage.Composer.VoiceSettledCorrected | client/src/pages/chat/ChatPage.jsx:221-243 | corrected: after a voice send the button is free whatever the outcome |
| ChatPage.VoiceFailureBlocksText | client/src/pages/chat/ChatPage.jsx:106-115 | as written, after a failed voice message a typed text is not sent |
| ChatPage.VoiceFailureThenTextCorrected | client/src/pages/chat/ChatPage.jsx:106-115 | with the corrected outcome, the same text is sent after a failed voice message |
| ChatPage.Composer.Settle | client/src/pages/chat/ChatPage.jsx:118-124 | a failed send puts the text back in the box; either way the send button is freed |
| ChatPage.Recorder.constructor | client/src/pages/chat/ChatPage.jsx:24-28 | the recorder starts idle, with no seconds counted and no chunks |
| ChatPage.Recorder.Start | client/src/pages/chat/ChatPage.jsx:131-179 | recording starts with a cleared cancel flag, zero seconds and no chunks |
| ChatPage.Recorder.Tick | client/src/pages/chat/ChatPage.jsx:169-173 | each second adds one to the count while recording, and nothing otherwise |
| ChatPage.Recorder.Data | client/src/pages/chat/ChatPage.jsx:141-146 | a non-empty chunk is appended unless the recording was cancelled; otherwise the chunks stay as they were |
| ChatPage.Recorder.Cancel | client/src/pages/chat/ChatPage.jsx:201-215 | cancelling a running recording drops its chunks, zeroes the count and marks it cancelled; when nothing is recording, nothing changes |
| ChatPage.Recorder.Stop | client/src/pages/chat/ChatPage.jsx:148-199 | stopping a running recording clears the cancel flag and appends the recorder's final non-empty flush to the chunks; stopping when idle changes nothing; a voice message is sent exactly when a recording was running and then has chunks, and it carries the seconds counted |
| ChatPage.ShortRecordingIsSent | client/src/pages/chat/ChatPage.jsx:148-199 | a recording stopped before its first one-second chunk is still sent, by the flush on stop, with 0 seconds |
| ChatPage.Recorder.VoiceSent | client/src/pages/chat/ChatPage.jsx:234-235 | once the server accepts a voice message, the count goes back to 0 |
| ApiClient.QueryOf | client/src/services/api.js:302-306 | a query string is empty exactly when there are no parameters |
| ApiClient.RangeQuery | client/src/services/api.js:302-306 | the query built by appending equals the '?'-and-'&' join of the date parameters that are present |
| ApiClient.RangeQueryCases | client/src/services/api.js:309-313 | the four shapes of the range query: none, only the start, only the end, or both joined by '&' |
| ApiClient.OptionalQuery | client/src/services/api.js:300 | an empty value adds nothing; a non-empty one adds the single parameter name=value |
| ApiClient.Headers | client/src/services/api.js:7-13 | every call sends the JSON content type; an Authorization header is present exactly when a non-empty token is stored, and it is "Bearer " followed by the token |
| ApiClient.Outcome | client/src/services/api.js:15-36 | a failed fetch means the server is unreachable and an empty body is an error; a call succeeds exactly when the body is non-empty, parses and the status is OK, and then the result is the parsed body; a non-OK status is refused with the server's message, or a non-empty default message when it sent none |
| ApiClient.GetMessages | client/src/services/api.js:240-241 | a GET with no body; without a page number it asks for page 1 |
| ApiClient.SendMessage | client/src/services/api.js:243-246 | a POST whose body has the single field content, holding exactly the second argument |
| AppRoutes.Match | client/src/App.jsx:152 | a path matched as a child's page is "/children/" followed by a non-empty id without a slash, and the id is not "add" |
| AppRoutes.MatchPathOf | client/src/App.jsx:113-241 | each route is matched from its own path, so no route of the table shadows another |
| AppRoutes.Protected | client/src/App.jsx:27-48 | the loader shows exactly while loading; /login exactly when loaded and signed out; the page exactly when signed in and the role list (if any) includes the user's role; otherwise /dashboard |
| AppRoutes.Public | client/src/App.jsx:77-94 | the loader shows exactly while loading, and the page exactly when loaded and signed out; otherwise /dashboard |
| AppRoutes.DashboardFor | client/src/App.jsx:51-63 | admins get the admin dashboard, doctors the doctor dashboard, and every other user (a role-less one included) the parent dashboard |
| AppRoutes.Show | client/src/App.jsx:111-243 | a protected page renders only for a signed-in user whose role is on that route's list |
| AppRoutes.SignedOutSeesOnlyPublicPages | client/src/App.jsx:111-243 | a signed-out user can only see the login, registration and two-factor pages |
| AppRoutes.ParentRoutes | client/src/App.jsx:138-201 | for a signed-in user, the children pages render exactly for parents, and the chat exactly for parents and doctors |
| AppRoutes.StaffRoutes | client/src/App.jsx:129-228 | the schedule renders exactly for doctors, patients for doctors and admins, the admin pages for admins, and /dashboard renders the user's dashboard |
| AppRoutes.RedirectsSettle | client/src/App.jsx:66-74 | once loading is over, every path reaches a page after at most three redirects |
| AppointmentsList.Upcoming | client/src/pages/appointments/AppointmentsList.jsx:117-120 | holds exactly the pending or confirmed appointments due now or later, in the order received |
| AppointmentsList.Past | client/src/pages/appointments/AppointmentsList.jsx:121-124 | holds exactly the completed, rejected or cancelled appointments plus the overdue ones, in the order received |
| AppointmentsList.History | client/src/pages/appointments/AppointmentsList.jsx:259 | the history table shows the first ten past appointments, or all of them when there are fewer |
| AppointmentsList.GroupsPartition | client/src/pages/appointments/AppointmentsList.jsx:116-125 | an appointment with one of the five schema statuses is in exactly one of the two groups; one with any other status is never upcoming, and is past exactly when overdue |
| AppointmentsList.Badge | client/src/pages/appointments/AppointmentsList.jsx:60-69 | a known status shows its translated label; an unknown one shows in grey as the raw status; the grey class is used exactly for cancelled and unknown statuses |
| AppointmentsList.DefaultForm | client/src/pages/appointments/AppointmentsList.jsx:19-26 | the form opens with the child from the query parameter (or none), the time 09:00, and every other field empty |
| AppointmentsList.SubmitData | client/src/pages/appointments/AppointmentsList.jsx:74-78 | the request carries every form field except doctorId, whose value goes under doctor, or is absent when it is empty |
| AppointmentsList.AfterSubmit | client/src/pages/appointments/AppointmentsList.jsx:84-91 | after a successful request the form returns to its defaults, without the query's child |
| AppointmentsList.PickSlot | client/src/pages/appointments/AppointmentsList.jsx:146-152 | picking a slot sets the doctor, the date and the start time, and leaves the child, the vaccines and the notes untouched |
| AppointmentsList.Actions | client/src/pages/appointments/AppointmentsList.jsx:204-235 | a doctor may confirm or reject exactly the pending appointments and complete exactly the confirmed ones; a parent may cancel exactly the pending ones; no other action is offered |
| AppointmentsList.ClosedOffersNothing | client/src/pages/appointments/AppointmentsList.jsx:204-235 | no role is offered any action on a completed, rejected or cancelled appointment |
| SchedulePage.Clock | client/src/pages/schedule/DoctorSchedulePage.jsx:107 | a time of day renders as five characters with a colon in the middle |
| SchedulePage.ClockOrder | client/src/pages/schedule/DoctorSchedulePage.jsx:107 | zero-padded times compare as strings in the same order as the times themselves, and different times render differently |
| SchedulePage.MinutesOfClock | client/src/pages/schedule/DoctorSchedulePage.jsx:107 | reading a rendered HH:MM gives back the same time |
| SchedulePage.GenerateTimeOptions | client/src/pages/schedule/DoctorSchedulePage.jsx:103-112 | the nested hour and half-hour loops produce exactly 22 options, the k-th being 08:00 plus k half hours (08:00 to 18:30) |
| SchedulePage.GridStep | client/src/pages/schedule/DoctorSchedulePage.jsx:105-108 | the option pushed for hour h and minute m is the grid's entry for the half hours since 08:00 |
| SchedulePage.GridIncreasing | client/src/pages/schedule/DoctorSchedulePage.jsx:103-112 | the grid is strictly increasing, so no time is offered twice |
| SchedulePage.MorningIsHalfHourly | client/src/pages/schedule/DoctorSchedulePage.jsx:207-214 | every morning slot is half an hour, each ending where the next begins |
| SchedulePage.Morning | client/src/pages/schedule/DoctorSchedulePage.jsx:207-214 | the morning preset is six slots from 09:00 to 12:00 |
| SchedulePage.AfternoonIsHalfHourly | client/src/pages/schedule/DoctorSchedulePage.jsx:221-228 | every afternoon slot is half an hour, each ending where the next begins |
| SchedulePage.Afternoon | client/src/pages/schedule/DoctorSchedulePage.jsx:221-228 | the afternoon preset is six slots from 14:00 to 17:00 |
| SchedulePage.FullDay | client/src/pages/schedule/DoctorSchedulePage.jsx:235-248 | the full-day preset is the morning preset followed by the afternoon one |
| SchedulePage.Without | client/src/pages/schedule/DoctorSchedulePage.jsx:37 | removing an index inside the list drops exactly that slot and keeps the others in order; an index outside the list changes nothing |
| SchedulePage.SlotEditor.constructor | client/src/pages/schedule/DoctorSchedulePage.jsx:14 | the editor opens closed, with no slots |
| SchedulePage.SlotEditor.AddSlot | client/src/pages/schedule/DoctorSchedulePage.jsx:32-34 | a 09:00-09:30 slot is appended |
| SchedulePage.SlotEditor.RemoveSlot | client/src/pages/schedule/DoctorSchedulePage.jsx:36-38 | the slots become the list with that index removed |
| SchedulePage.SlotEditor.ChangeSlot | client/src/pages/schedule/DoctorSchedulePage.jsx:40-44 | only the named field of the slot at that index changes; every other slot is untouched |
| SchedulePage.SlotEditor.UsePreset | client/src/pages/schedule/DoctorSchedulePage.jsx:207-248 | a preset replaces the slots |
| SchedulePage.SlotEditor.Save | client/src/pages/schedule/DoctorSchedulePage.jsx:46-58 | saving is refused exactly when there are no slots; otherwise the request carries the selected date, exactly the edited slots and `isAvailable: true` |
| SchedulePage.SlotBodyOf | client/src/pages/schedule/DoctorSchedulePage.jsx:54-58 | a draft is posted with its two times and no booking fields |
| SchedulePage.SaveBody | client/src/pages/schedule/DoctorSchedulePage.jsx:54-58 | the posted body is the date, one slot body per draft in order, `isAvailable: true` and no notes |
| SchedulePage.SaveReopensDay | client/src/pages/schedule/DoctorSchedulePage.jsx:54-58 | whether the server re-plans the day's schedule or creates one, saving leaves it available, holding exactly the drafts as new free slots, with its notes kept (or "" when new) |
| SchedulePage.SlotEditor.Close | client/src/pages/schedule/DoctorSchedulePage.jsx:259-262 | closing, by cancel or after a save, empties the slots and closes the editor |
| SchedulePage.CountsCoverSlots | client/src/pages/schedule/DoctorSchedulePage.jsx:331-334 | the available and booked counts of a schedule card add up to its number of slots |
| Verify2FA.JoinedFull | client/src/pages/auth/Verify2FA.jsx:76-77 | cells of at most one character join to no more characters than there are cells, and to exactly that many exactly when every cell is filled |
| Verify2FA.LastChar | client/src/pages/auth/Verify2FA.jsx:44 | at most one character is kept, and it is the value's last; it is empty exactly when the value is empty |
| Verify2FA.Pasted | client/src/pages/auth/Verify2FA.jsx:61 | the pasted text is cut to a prefix of at most six characters, and a text of six or fewer is kept whole |
| Verify2FA.EmptyCode | client/src/pages/auth/Verify2FA.jsx:9 | six empty cells |
| Verify2FA.CodeForm.constructor | client/src/pages/auth/Verify2FA.jsx:9-13 | the page opens with six empty cells, the first one focused, no cooldown and no error |
| Verify2FA.CodeForm.HandleChange | client/src/pages/auth/Verify2FA.jsx:40-51 | a value holding a non-digit changes nothing; otherwise the cell keeps only the value's last digit, or is cleared by an empty value, and a non-empty entry in any but the last cell moves the focus to the next one |
| Verify2FA.CodeForm.HandleKeyDown | client/src/pages/auth/Verify2FA.jsx:53-57 | backspace on an empty cell other than the first moves the focus back one cell; any other key leaves the focus where it was |
| Verify2FA.CodeForm.HandlePaste | client/src/pages/auth/Verify2FA.jsx:59-70 | an empty or non-numeric paste is ignored; otherwise its first six digits fill the cells from the first, later cells keep their contents, and the focus moves to the cell after the last one filled, or to the last cell at most |
| Verify2FA.CodeForm.Submit | client/src/pages/auth/Verify2FA.jsx:72-80 | the code is sent exactly when every cell is filled, and then it is the six joined digits; otherwise an error is shown |
| Verify2FA.CodeForm.VerifyFailed | client/src/pages/auth/Verify2FA.jsx:87-90 | a rejected code shows an error, empties every cell and focuses the first |
| Verify2FA.CodeForm.Resent | client/src/pages/auth/Verify2FA.jsx:99-101 | a successful resend starts the 60-second cooldown and clears the error |
| Verify2FA.CodeForm.Tick | client/src/pages/auth/Verify2FA.jsx:34-36 | each second lowers a running countdown by one; at zero it stays at zero |
| Verify2FA.AfterTicks | client/src/pages/auth/Verify2FA.jsx:34-36 | after some ticks the countdown is its start minus the ticks, and never goes below zero |
| Verify2FA.ResendAvailableAfterCooldown | client/src/pages/auth/Verify2FA.jsx:153-154 | after a resend, resending becomes possible again exactly once 60 ticks have passed |
| AgeLabel.Detailed | client/src/pages/children/ChildDetail.jsx:68-82 | ages below twelve months (negative ones included) are shown in months; otherwise in at least one whole year, followed by the remaining months (between 1 and 11) only when there are some |
| AgeLabel.DetailedIsExact | client/src/pages/children/ChildrenList.jsx:47-61 | a detailed label reads back as exactly the age in months it was built from |
| AgeLabel.DetailedInjective | client/src/components/VaccinationCertificate.jsx:15-24 | two different ages never get the same detailed label |
| AgeLabel.YearsOnly | client/src/pages/patients/PatientsList.jsx:35-43 | below twelve months the label is in months; otherwise it is whole years only, at least one |
| AgeLabel.YearsOnlyRoundsDown | client/src/pages/dashboard/AdminDashboard.jsx:95-103 | the years-only label rounds the age down to whole years, gives the same years as the detailed label, and is the same label when there are no remaining months |
| AgeLabel.ChildAge | client/src/pages/children/ChildDetail.jsx:68-72 | a child's label reads as the calendar-month difference between the birth month and today's month |
| AnnouncementBanner.StorageKey | client/src/components/AnnouncementBanner.jsx:15-20 | each signed-in user with an id has their own storage key; everyone else shares the guest key |
| AnnouncementBanner.StorageKeysDiffer | client/src/components/AnnouncementBanner.jsx:15-20 | two different users never share a dismissed list |
| AnnouncementBanner.NotDismissed | client/src/components/AnnouncementBanner.jsx:34 | holds exactly the announcements whose id has not been dismissed, in the order received |
| AnnouncementBanner.WithoutId | client/src/components/AnnouncementBanner.jsx:48 | holds exactly the announcements with a different id, in the order they were |
| AnnouncementBanner.WithoutAbsentId | client/src/components/AnnouncementBanner.jsx:48 | removing an id that no announcement has leaves the list unchanged |
| AnnouncementBanner.WithoutPresentId | client/src/components/AnnouncementBanner.jsx:48 | in a list without repeated ids, removing an id that is present shortens the list by exactly one |
| AnnouncementBanner.Banner.constructor | client/src/components/AnnouncementBanner.jsx:8-10 | the banner starts with no announcements, nothing dismissed and the index at 0 |
| AnnouncementBanner.Banner.Load | client/src/components/AnnouncementBanner.jsx:28-40 | the dismissed list becomes what is stored under the user's key, and the shown announcements are the active ones that were not dismissed |
| AnnouncementBanner.Banner.Dismiss | client/src/components/AnnouncementBanner.jsx:42-53 | the id is appended to the dismissed list and stored under the user's key; that announcement leaves the list; the index returns to 0 when it was on the last announcement or past it |
| AnnouncementBanner.Banner.Next | client/src/components/AnnouncementBanner.jsx:55-57 | the index moves one forward, wrapping round, and stays on an announcement |
| AnnouncementBanner.Banner.Prev | client/src/components/AnnouncementBanner.jsx:59-61 | the index moves one back, wrapping round, and stays on an announcement |
| AnnouncementBanner.Banner.Current | client/src/components/AnnouncementBanner.jsx:83-86 | the banner shows something exactly when the index points at an announcement, and then it shows that one |
| AnnouncementBanner.DismissKeepsIndexInRange | client/src/components/AnnouncementBanner.jsx:42-53 | dismissing the announcement on screen shortens the list by one, and the new index is on an announcement whenever one is left |
| AnnouncementBanner.NextPrevInverse | client/src/components/AnnouncementBanner.jsx:55-61 | next and previous undo each other |
| AnnouncementBanner.TypeClass | client/src/components/AnnouncementBanner.jsx:63-81 | warning, alert and success each get their own style, and exactly the other types are shown as information |
| ChildDetail.GroupName | client/src/pages/children/ChildDetail.jsx:106 | a dose is grouped under its vaccine's name, or under "Unknown" when it has no name or an empty one; the group name is never empty |
| ChildDetail.UnnamedGroupIsEmpty | client/src/pages/children/ChildDetail.jsx:103-113 | a group that was never opened holds no doses |
| ChildDetail.GroupByVaccine | client/src/pages/children/ChildDetail.jsx:103-113 | the single pass opens the groups in order of first appearance, has a group exactly for each name opened, and each group holds exactly that name's doses in arrival order |
| ChildDetail.GroupIsFilter | client/src/pages/children/ChildDetail.jsx:105-111 | a group holds, in arrival order, exactly the doses with that name |
| ChildDetail.NamesAreTheDoses | client/src/pages/children/ChildDetail.jsx:105-111 | the group names are exactly the names of the doses, each listed once |
| ChildDetail.EachDoseInOneGroup | client/src/pages/children/ChildDetail.jsx:103-113 | every dose is in the group of its own name, that name is listed, and the dose is in no other group |
| ChildDetail.SortedDoses | client/src/pages/children/ChildDetail.jsx:239 | sorting a group keeps the same doses, each as often as before |
| ChildDetail.DosesShownInOrder | client/src/pages/children/ChildDetail.jsx:239 | a group's doses are shown in ascending dose number |
| ChildDetail.TwoStatusCounts | client/src/pages/children/ChildDetail.jsx:178-186 | no dose is counted under two different statuses |
| ChildDetail.ProfileOf | client/src/pages/children/ChildDetail.jsx:178-186 | the total is the number of doses, the completed and delayed figures are the numbers of doses with those statuses, and together they never exceed the total |
| ChildDetail.GroupHeader | client/src/pages/children/ChildDetail.jsx:235 | a group's header is the number of its completed doses over its size |
| ChildDetail.StatusCountIsFilter | client/src/pages/children/ChildDetail.jsx:178-186 | counting the doses of a status is the length of the doses filtered by that status |
| ChildDetail.DateShown | client/src/pages/children/ChildDetail.jsx:246-248 | the administration date is shown exactly for a completed dose that has one; otherwise the scheduled date is shown |
| ChildDetail.Badge | client/src/pages/children/ChildDetail.jsx:93-101 | scheduled, completed and delayed doses show their own label; a missed dose is grey with the dashboard's delayed text; any other status is grey with its raw name; only completed doses are green |
| ChildDetail.Actions | client/src/pages/children/ChildDetail.jsx:256-272 | a parent may report a side effect exactly on a completed dose; a doctor may mark completed exactly a dose that is not completed yet |
| ChildDetail.NoDoseOffersBoth | client/src/pages/children/ChildDetail.jsx:256-272 | no dose ever offers both actions |
| ChildDetail.MarkCompletedUpdate | client/src/pages/children/ChildDetail.jsx:51-56 | the update sets the status to completed and the administration date to now |
| ChildDetail.CompletedDoseShowsAdministration | client/src/pages/children/ChildDetail.jsx:51-272 | once the update is applied, the dose shows its administration date and offers the report action to a parent only |
| ChildrenList.WithoutChild | client/src/pages/children/ChildrenList.jsx:35 | holds exactly the children with a different id, in the order they were |
| ChildrenList.WithoutAbsentChild | client/src/pages/children/ChildrenList.jsx:35 | when no child has the id, the list is unchanged |
| ChildrenList.ChildrenPage.constructor | client/src/pages/children/ChildrenList.jsx:8-10 | the page starts with the loaded children, no armed deletion and no timers |
| ChildrenList.ChildrenPage.Press | client/src/pages/children/ChildrenList.jsx:28-45 | a second press on the armed child sends the deletion, and on success removes only that child and disarms; a failed deletion changes nothing; a press on any other child arms it and starts a three-second timer |
| ChildrenList.ChildrenPage.Elapse | client/src/pages/children/ChildrenList.jsx:43 | every timer that is due fires and clears the armed confirmation, even one armed by a later press; timers not yet due stay |
| LanguageContext.Root | client/src/contexts/LanguageContext.jsx:5 | only French and Arabic have a table |
| LanguageContext.WalkAppend | client/src/contexts/LanguageContext.jsx:49-51 | walking a key in two parts reaches the same entry as walking it at once |
| LanguageContext.Translate | client/src/contexts/LanguageContext.jsx:44-67 | the loop walks the current language segment by segment, and at the first missing segment walks the whole key again from French; it answers what the translation function defines |
| LanguageContext.WalkFrench | client/src/contexts/LanguageContext.jsx:54-61 | the fallback walk reaches the French entry of the whole key, or nothing from the first missing segment |
| LanguageContext.ResolvedKeyIsItsText | client/src/contexts/LanguageContext.jsx:44-67 | a dotted key whose segments are all present in the current language, ending on a string, is translated as that string |
| LanguageContext.ArabicKeyIgnoresFrench | client/src/contexts/LanguageContext.jsx:44-67 | a key found in Arabic is answered without consulting the French table |
| LanguageContext.MissingKeyFallsBack | client/src/contexts/LanguageContext.jsx:52-66 | a segment missing from the current language gives the French string for the key; a key French lacks too, or one ending on a table, comes back unchanged |
| LanguageContext.TableKeyIsItself | client/src/contexts/LanguageContext.jsx:66 | a key that reaches a table rather than a string is answered with itself |
| LanguageContext.UnknownLanguageReadsFrench | client/src/contexts/LanguageContext.jsx:44-67 | a stored language without a table reads every key exactly as French does |
| LanguageContext.Language.constructor | client/src/contexts/LanguageContext.jsx:18-20 | the language is the stored one, or French when nothing or an empty string is stored |
| LanguageContext.Language.SwitchLanguage | client/src/contexts/LanguageContext.jsx:69-73 | only French or Arabic is taken, and anything else leaves the language as it was; the text runs right to left exactly for Arabic |
| NotificationsPage.AgoBuckets | client/src/pages/notifications/NotificationsPage.jsx:55-76 | under a minute (a future date included) shows "now"; otherwise the label is the whole minutes (1-59), hours (1-23) or days (1-6) elapsed, rounded down; a week or more shows the date |
| NotificationsPage.AgoOf | client/src/pages/notifications/NotificationsPage.jsx:55-79 | the label is "now" exactly when less than a minute has passed; minutes shown are 1-59, hours 1-23 and days 1-6 |
| NotificationsPage.IconOf | client/src/pages/notifications/NotificationsPage.jsx:82-92 | reminder, confirmation, delay, alert, info and cancellation get the clock, check, warning, siren, megaphone and cross icons respectively, each icon for its type alone, and exactly the other types get the bell |
| NotificationsPage.ColourOf | client/src/pages/notifications/NotificationsPage.jsx:94-104 | alerts and cancellations are shown as danger, confirmations as success and delays as warning; any unknown type is shown as primary |
| ParentDashboard.Total | client/src/pages/dashboard/ParentDashboard.jsx:60 | the total is the completed, scheduled and delayed counts added up, and 0 when the statistics request failed |
| ParentDashboard.RoundedPercent | client/src/pages/dashboard/ParentDashboard.jsx:62 | the result is the exact percentage rounded half up, as Math.round does |
| ParentDashboard.Rate | client/src/pages/dashboard/ParentDashboard.jsx:61-63 | the rate is 0 when there are no vaccinations; otherwise it is the completed share rounded half up to a whole percentage |
| ParentDashboard.RateBounds | client/src/pages/dashboard/ParentDashboard.jsx:61-63 | the rate is at most 100; it is exactly 100 when every vaccination is completed, and 0 when none is |
| ParentDashboard.PercentBounds | client/src/pages/dashboard/ParentDashboard.jsx:62 | a share of a whole rounds to a percentage between 0 and 100, with both ends reached exactly |
| ParentDashboard.RateColour | client/src/pages/dashboard/ParentDashboard.jsx:128 | 75 and above is success, 50 to 74 is warning, and below 50 is primary |
| ParentDashboard.ChartOnlyWithVaccinations | client/src/pages/dashboard/ParentDashboard.jsx:151 | the chart is drawn exactly when the statistics arrived and at least one count is positive |
| ParentDashboard.RecentAppointments | client/src/pages/dashboard/ParentDashboard.jsx:28 | the first five appointments that are not cancelled, or all of them when there are fewer, in the order received |
| ParentDashboard.RecentNotifications | client/src/pages/dashboard/ParentDashboard.jsx:29 | at most the first five notifications, exactly five when there are that many, and none when the answer has no list |
| PatientsList.Filtered | client/src/pages/patients/PatientsList.jsx:54-60 | holds exactly the patients whose name or parent's name contains the search text, compared without case, in the order received |
| PatientsList.Matches | client/src/pages/patients/PatientsList.jsx:54-57 | an empty search matches every patient |
| PatientsList.FilterIsIgnored | client/src/pages/patients/PatientsList.jsx:58-59 | the filter value never changes the list: both branches return the same test |
| PatientsList.EmptySearchListsAll | client/src/pages/patients/PatientsList.jsx:54-60 | an empty search lists every patient |
| PatientsList.OwnNameMatches | client/src/pages/patients/PatientsList.jsx:55 | a patient whose name equals the search text, ignoring case, is listed |
| AdminDashboard.LeadingDigits | client/src/pages/dashboard/AdminDashboard.jsx:62 | the digits parseInt reads: a prefix of the piece, all of it digits, and stopping at the first character that is not a digit |
| AdminDashboard.AllDigitsLead | client/src/pages/dashboard/AdminDashboard.jsx:62 | a piece made only of digits is read in full |
| AdminDashboard.ParseInt | client/src/pages/dashboard/AdminDashboard.jsx:62 | the result is NaN exactly when no digit follows the optional sign |
| AdminDashboard.IntToString | client/src/pages/dashboard/AdminDashboard.jsx:286 | every integer is written with at least one character |
| AdminDashboard.ParseIntToString | client/src/pages/dashboard/AdminDashboard.jsx:62 | parseInt reads back exactly the integer that was written |
| AdminDashboard.ParseDigits | client/src/pages/dashboard/AdminDashboard.jsx:62 | a written number, with or without a minus sign, parses back to its value |
| AdminDashboard.ParseAges | client/src/pages/dashboard/AdminDashboard.jsx:62 | the result has one entry per comma-separated piece, each being parseInt of the trimmed piece |
| AdminDashboard.TrimDigits | client/src/pages/dashboard/AdminDashboard.jsx:62 | trimming a string of digits leaves it unchanged |
| AdminDashboard.ParseAgesRoundTrip | client/src/pages/dashboard/AdminDashboard.jsx:62 | ages written as a comma-separated list are read back as exactly those ages, in order |
| AdminDashboard.EmptyAgesIsOneNaN | client/src/pages/dashboard/AdminDashboard.jsx:62 | an empty age field gives a list holding one NaN, not an empty list |
| AdminDashboard.VaccineData | client/src/pages/dashboard/AdminDashboard.jsx:60-63 | the vaccine sent has the form's fields, with the ages parsed from the text |
| AdminDashboard.EmptyVaccineForm | client/src/pages/dashboard/AdminDashboard.jsx:68 | the form is reset to empty text fields, one dose, and marked mandatory |
| AdminDashboard.DosesNotCheckedAgainstAges | client/src/pages/dashboard/AdminDashboard.jsx:60-63 | the dose count is sent exactly as typed; it is never compared with the number of ages |
| AdminDashboard.AgeBadgeOf | client/src/pages/dashboard/AdminDashboard.jsx:286 | age 0 shows as birth; any other age shows as the number followed by m |
| AdminDashboard.AgeBadgeInjective | client/src/pages/dashboard/AdminDashboard.jsx:286 | different ages never get the same badge |
| AdminDashboard.AfterDelete | client/src/pages/dashboard/AdminDashboard.jsx:74-78 | after the deletion only that child's id leaves the list; the others keep their order |
| SideEffectForm.Defaults | client/src/components/SideEffectForm.jsx:20-26 | the form opens with no symptoms, mild severity, empty text fields and an onset date of today |
| SideEffectForm.Toggle | client/src/components/SideEffectForm.jsx:30-37 | a symptom already ticked is removed; any other symptom is appended |
| SideEffectForm.ToggleFlips | client/src/components/SideEffectForm.jsx:30-37 | a toggle flips only that symptom's membership and never creates a duplicate |
| SideEffectForm.ToggleTwice | client/src/components/SideEffectForm.jsx:30-37 | toggling an unticked symptom twice gives back the same list |
| SideEffectForm.Submit | client/src/components/SideEffectForm.jsx:43-55 | a report is refused exactly when no symptom is ticked; otherwise it carries the three ids and the whole form |
| SideEffectForm.OneSymptomSuffices | client/src/components/SideEffectForm.jsx:20-55 | a freshly opened form cannot be sent; ticking one symptom makes it sendable with exactly that symptom |
| UsersManagement.FilteredUsers | client/src/pages/admin/UsersManagement.jsx:68-79 | holds exactly the users matching the search and passing the filter, in the order received |
| UsersManagement.EmptySearchListsAll | client/src/pages/admin/UsersManagement.jsx:68-79 | an empty search with the "all" filter lists every user |
| UsersManagement.ActivityFiltersSplit | client/src/pages/admin/UsersManagement.jsx:73-74 | every search result is in exactly one of the active and inactive lists |
| UsersManagement.ActiveAndInactiveAreAll | client/src/pages/admin/UsersManagement.jsx:81-88 | every user is counted as either active or inactive |
| UsersManagement.RolesCoverUsers | client/src/pages/admin/UsersManagement.jsx:81-88 | the three role counts never exceed the number of users, and add up to it when every user has one of the three roles |
| UsersManagement.RoleCountIsFilter | client/src/pages/admin/UsersManagement.jsx:81-88 | counting the users of a role gives the length of `users.filter(u => u.role === role)` |
| UsersManagement.ActiveCountIsFilter | client/src/pages/admin/UsersManagement.jsx:81-88 | counting active and inactive users gives the lengths of the filters on `isActive` and on its negation |
| UsersManagement.StatsOf | client/src/pages/admin/UsersManagement.jsx:81-88 | the total is the number of users; each role counter and the active and inactive counters are the lengths of the matching filters over the users; active and inactive add up to the total; the role counts never exceed it, and add up to it when every user has one of the three roles |
| UsersManagement.MatchesSearch | client/src/pages/admin/UsersManagement.jsx:69-70 | an empty search matches every user |
| UsersManagement.PassesFilter | client/src/pages/admin/UsersManagement.jsx:72-78 | a role filter passes only users of that role; a value that is neither a status nor a role passes everyone |
| UsersManagement.RoleBadge | client/src/pages/admin/UsersManagement.jsx:59-66 | each of the three roles has its own badge with a translated label; any other role is grey and shows its raw name |
| VaccinationCertificate.CompletedDoses | client/src/components/VaccinationCertificate.jsx:8 | holds exactly the completed doses, in the order received |
| VaccinationCertificate.CompletedRowsAreCounted | client/src/components/VaccinationCertificate.jsx:109-125 | the table has as many rows as the summary counts completed doses |
| VaccinationCertificate.SummaryOf | client/src/components/VaccinationCertificate.jsx:125-134 | the completed figure is the number of table rows; the scheduled and delayed figures are the numbers of doses with those statuses |
| VaccinationCertificate.RowOf | client/src/components/VaccinationCertificate.jsx:111-114 | a row shows the vaccine name (or N/A), the dose number, the administration date (or the scheduled date when there is none), and "Dr. " with the doctor's name (or "-" when there is none) |
| VaccinationCertificate.Rows | client/src/components/VaccinationCertificate.jsx:109-114 | one row per completed dose, in the same order |
| VaccinationCertificate.RowDateAgreesWithPage | client/src/components/VaccinationCertificate.jsx:113 | for a completed dose with an administration date, the certificate and the child page show the same date |
| VaccinationCertificate.SummaryLeavesOutMissedAndCancelled | client/src/components/VaccinationCertificate.jsx:125-133 | with the record schema's five statuses, the summary counts every dose except the missed and cancelled ones, which none of its figures includes |

## Left out

- Time.AddMonths: a calendar month is modelled as a fixed 30 days. `setMonth` arithmetic on local calendar dates is not modelled.
- Time.Midnight: this floors to a UTC day. The server's and the browser's local time zones are not modelled.
- VaccinationController.MonthStart: the current month is a fixed-length window of whole months since the epoch, not the local calendar month of `new Date()`.
- AdminDashboard.ParseInt: an optional sign and the leading decimal digits are read. `parseInt`'s own skipping of leading white space is not modelled (the page trims each piece first), and neither is its `0x` prefix, so "0x1A" reads as 0 here.
- ParentDashboard.RoundedPercent: this is integer rounding of the ratio. `Math.round` applied to a double is not modelled.
- VaccinationController.RoundPercent: this rounds the exact ratio half up. The source rounds the double `(c / t) * 100`, whose representation error can fall on the other side of a half: for 57 completed out of 200 the double is just below 28.5, so the source gives 28 where the model gives 29.
- Text.Lower: only ASCII letters are lower-cased. Unicode case mapping is not modelled.
- AnnouncementBanner.Banner.Next: requires a non-empty list, because the banner renders nothing, and so offers no arrows, when the list is empty.
- AnnouncementBanner.Banner.Prev: requires a non-empty list, for the same reason.
- Password hashing (bcrypt), JWT signing and verification, the random 2FA code and the email that carries it: these are opaque services. Their results are parameters.
- The pre-save hook of `server/models/User.js` re-hashes the password on every save, because `next()` is called without `return`. Hashing is opaque here, so this is not modelled.
- `getMe` (server/controllers/authController.js) only returns the caller's document. It has nothing to model.
- Mongoose schema validation is modelled only for the fields named below, and `timestamps`/`updatedAt` are not modelled. In particular:
  - `Message.js` allows only the `text` and `system` types and requires `content`, so storing a voice message would be refused with a 500. The model follows the controller, which writes `audio`.
  - The required fields of doctor notes, lab results (`fileName` included) and side effects are not checked.
  - A value outside a schema's enum is answered with a 500 only where the controller passes a request string straight to the schema: the appointment status and type (`AppointmentController.ApplyUpdate`, `AppointmentController.NewAppointment`) the user's role (`AuthController.NewUser`, `AuthController.ApplyUserUpdate`), and the child's required name, gender and blood type (`ChildController.ValidateChild`, `ChildController.ApplyChildPatch`). The vaccination record's status in `updateVaccinationStatus` (server/controllers/vaccinationController.js:37) and an announcement's type, priority and audience also reach the schema unchecked, but the model gives them enum types (`VaccinationController.UpdateVaccinationStatus`, `AnnouncementController.NewAnnouncement`, `AnnouncementController.ApplyPatch`), so an out-of-enum value, and the 500 the schema would answer it with, is not representable there; the same holds for every other enum-typed field.
  - The schemas' `trim` and `lowercase` setters are applied to the user's e-mail, name, phone, address and specialty, to appointment notes and rejection reasons, to doctor notes and to message content. They are not applied to announcement titles and messages, lab-result titles, descriptions and doctor comments, notification titles and messages, vaccination-record notes and batch numbers, or vaccine names and descriptions. Those strings are stored as the request gives them. A vaccine's `sideEffects` and `contraindications` texts (server/models/Vaccine.js:27-34) are not modelled: `VaccineModel.Vaccine` has no such fields.
  - `User.js` requires a name. A profile update whose name is only white space trims it to an empty string, which the schema would refuse; `AuthController.ApplyProfile` stores it.
  - The slots of a schedule body may carry `isBooked` and `bookedBy`. The schema stores them as given (`ScheduleController.MakeSlots`), so the store's slot-consistency invariant, `Store.Db.SlotsOk`, is only kept when the body's slots are consistent. `ScheduleController.CreateOrUpdateSchedule` and `ScheduleController.AddSlots` promise it under that condition, and `ScheduleController.BookedBodyWithoutBooker` shows a body that breaks it.
  - An `updateNote` whose content is only white space trims it to an empty string. The schema would then refuse it; the model stores it.
- `.populate` and the conversion of ObjectIds to strings are left out. References are ids in the store.
- `server/models/Conversation.js` is not part of this model. `ChatController.FindBetween` models the lookup `startConversation` makes.
- The store's own members (allocation of ids, insertion) are infrastructure and have no row.
- `getSideEffectsByChild` checks no ownership. The model keeps this.
- `updateLabResult` answers 403 through its own check to a caller who is neither a doctor nor an administrator. The model states this as an error outcome, not as a role precondition.
- `getLabResult` answers a parent whose child was deleted with a 500, because it reads the missing child's parent. The model keeps this.
- The ids in `reportSideEffect`'s notification follow the controller's order.
- MongoDB sorts are not specified as stable. The model sorts stably, ties keeping ascending id order.
- `seedVaccines` is modelled as replacing the whole catalogue at once.
- Concurrency: `bookSlot` reads, checks and saves without an atomic guard. The model is sequential; it says nothing about two concurrent bookings.
- Localized texts, the formatting of dates and times, and the wording of elapsed times are left out. The badges and labels carry translation keys.
- The order of `Object.entries` is not modelled. Maps are read by key.
- The lookup of keys through the prototype chain in `LanguageContext`, and in the badge tables, is not modelled. A key such as `constructor` is absent here.
- The router's case-insensitive matching and its tolerance of a trailing slash (`/children/` matching `/children`) are not modelled: `AppRoutes.Match` compares paths exactly. `"/404"` stands for any path that matches no route.
- The fetch behind `apiCall` is I/O. Its outcome (no answer, the body text, the parsed JSON, `response.ok`) is an input.
- Verify2FA: the input's `maxLength` is not modelled. Focus is modelled as the index of the box to focus.
- The missed-vaccination badge of the child page uses the translation key `dashboard.delayed`, as the page does.
- The ChildDetail "updating" state of its buttons is not modelled.
- MediaRecorder, `getUserMedia`, FileReader (the size of the final `dataavailable` flush is a parameter of `ChatPage.Recorder.Stop`), `localStorage`, `window.confirm` and `alert`, the polling and scroll timers, and the conversation fetches are browser and network I/O.
- `ChatPage.ServerReads` refuses a body whose `messageType` is unknown before looking the conversation up. The controller would first answer 404 or 403 for a missing or foreign conversation.
- Charts, install prompts and progress-bar percentages use floating point and rendering only. Register, Login, Profile, AddChild, LabResults, DoctorNotes, AnnouncementsManagement, DoctorDashboard, DoctorAvailability, Navbar and Footer are markup around one or two comparisons.
- The database connection, the server bootstrap, the administrator set-up script and the duplicate seed in the database configuration are process wiring.

## Findings

| source | as written | input that shows it | evidently intended | confidence | as-written member | corrected member |
|---|---|---|---|---|---|---|
| server/controllers/vaccinationController.js:136-154 | `endOfMonth` is midnight at the start of the month's last day, and the count uses `$lte endOfMonth` | a dose completed at 01:00 on the last day of the month is not counted in "completed this month" | count every dose administered from the first instant of the month up to, but not including, the first instant of the next month | not executed | `VaccinationController.GetStats`, `VaccinationController.CompletedInMonthAsWritten`, `VaccinationController.LastDayOfMonthMissed` | `VaccinationController.CompletedInMonth`, `VaccinationController.MonthWindowContainsWritten` |
| client/src/pages/chat/ChatPage.jsx:115 | the page passes `{ content: text }` to `chatAPI.sendMessage`, which wraps it again as `{ content: { content: text } }` (api.js:243-246). The server then calls `trim` on an object and answers 500. The voice message (ChatPage.jsx:229-233) lands inside `content` the same way, so the server sees a text message whose content is an object | any text, such as "bonjour", sent from the chat page; any recorded voice message | the text is sent as the body's own `content`, and the voice fields as the body's own `messageType`, `audioData` and `audioDuration`; for a voice message this alone is not enough, since the Message schema (type `text` or `system`, `content` required) would still refuse the save, which this model leaves out | not executed | `ChatPage.Composer.Send`, `ChatPage.TextRequestAsWritten`, `ChatPage.TextSendFailsAsWritten`, `ChatPage.VoiceRequestAsWritten`, `ChatPage.VoiceSendFailsAsWritten` | `ChatPage.Composer.SendCorrected`, `ChatPage.TextRequest`, `ChatPage.TextSendAccepted`, `ChatPage.VoiceRequest`, `ChatPage.VoiceSendAccepted` |
| client/src/pages/chat/ChatPage.jsx:360 | the conversation list reads `unreadCount` as a map keyed by user id, but `getConversations` (chatController.js:18-24) has already replaced it by the caller's own count, a number | a conversation listed with `unreadCount: 3` shows no unread badge | the badge shows the number the server sent | not executed | `ChatPage.UnreadAsWritten`, `ChatPage.ShowsBadge`, `ChatPage.ListedCountIgnoredAsWritten` | `ChatPage.Unread`, `ChatPage.ShowsBadgeCorrected`, `ChatPage.ListedBadgeIsServerCount` |
| client/src/pages/chat/ChatPage.jsx:221-243 | `sendVoiceMessageWithDuration` locks the send button, then sends from inside the `FileReader`'s `onloadend` callback; the surrounding `try`/`catch` does not cover that callback, so a failed send never reaches `setSendingMessage(false)` | any recorded voice message, which as written the server always refuses (row above): afterwards a typed text such as "bonjour" is not sent until the page is reloaded | the button is freed whatever the outcome of the voice send | not executed | `ChatPage.Composer.SendVoice`, `ChatPage.Composer.VoiceSettled`, `ChatPage.VoiceFailureBlocksText` | `ChatPage.Composer.VoiceSettledCorrected`, `ChatPage.VoiceFailureThenTextCorrected` |
| server/controllers/authController.js:121-143 | `verify2FA`, a public route (server/routes/authRoutes.js:21), compares `user.twoFactorCode !== code` and `user.twoFactorExpires < new Date()`; with no pending code both sides of the first are `undefined` and the second is false | a request `{ userId }` naming any account with two-factor off (or with no code pending) and no code: it is answered with a token for that account | a code is accepted only while one is pending on the account and equals it | not executed | `AuthController.Check2FA`, `AuthController.NoPendingCodePasses`, `AuthController.Verify2FA` | `AuthController.Check2FACorrected`, `AuthController.NoPendingCodeRefused`, `AuthController.Verify2FACorrected` |
