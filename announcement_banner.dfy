/**
 * The announcement banner (client/src/components/AnnouncementBanner.jsx):
 * the announcements shown, the dismissed ids kept per user in the
 * browser's storage, and the index of the announcement on screen. The
 * storage is a map from keys to id lists; fetching is an input.
 */
module AnnouncementBanner {
  import opened Common

  datatype Shown = Shown(id: string, title: string, message: string, kind: string, isPinned: bool)

  /** The storage key of the dismissed list: one per signed-in user, one for guests. */
  function StorageKey(userId: Option<string>): (k: string)
    ensures userId.Some? && userId.value != "" ==> k == "dismissedAnnouncements_" + userId.value
    ensures userId.None? || userId.value == "" ==> k == "dismissedAnnouncements_guest"
  {
    if userId.Some? && userId.value != "" then "dismissedAnnouncements_" + userId.value
    else "dismissedAnnouncements_guest"
  }

  /** Different users never share a dismissed list. */
  lemma StorageKeysDiffer(a: string, b: string)
    requires a != "" && b != "" && a != b
    ensures StorageKey(Some(a)) != StorageKey(Some(b))
  {
    var p := "dismissedAnnouncements_";
    assert StorageKey(Some(a))[|p|..] == a;
    assert StorageKey(Some(b))[|p|..] == b;
  }

  /** The announcements whose id is not among the dismissed ones, in the order received. */
  function NotDismissed(announcements: seq<Shown>, dismissed: seq<string>): (r: seq<Shown>)
    ensures forall a :: a in r <==> a in announcements && a.id !in dismissed
    ensures IsSubsequence(r, announcements)
  {
    Filter(announcements, (a: Shown) => a.id !in dismissed)
  }

  /** `announcements.filter(a => a._id !== id)`. */
  function WithoutId(announcements: seq<Shown>, id: string): (r: seq<Shown>)
    ensures forall a :: a in r <==> a in announcements && a.id != id
    ensures IsSubsequence(r, announcements)
  {
    Filter(announcements, (a: Shown) => a.id != id)
  }

  predicate DistinctIds(s: seq<Shown>)
  {
    forall i, j :: 0 <= i < j < |s| ==> s[i].id != s[j].id
  }

  /** Removing an id nobody has leaves the list as it was. */
  lemma WithoutAbsentId(s: seq<Shown>, id: string)
    requires forall i :: 0 <= i < |s| ==> s[i].id != id
    ensures WithoutId(s, id) == s
  {
    FilterAll(s, (a: Shown) => a.id != id);
  }

  /** Removing an id that occurs once shortens the list by exactly one. */
  lemma {:induction false} WithoutPresentId(s: seq<Shown>, id: string)
    requires DistinctIds(s)
    ensures (exists i :: 0 <= i < |s| && s[i].id == id) ==> |WithoutId(s, id)| == |s| - 1
    ensures (forall i :: 0 <= i < |s| ==> s[i].id != id) ==> WithoutId(s, id) == s
  {
    if forall i :: 0 <= i < |s| ==> s[i].id != id {
      WithoutAbsentId(s, id);
    } else if s != [] {
      var t := s[1..];
      assert DistinctIds(t) by {
        forall i, j | 0 <= i < j < |t| ensures t[i].id != t[j].id {
          assert t[i] == s[i + 1] && t[j] == s[j + 1];
        }
      }
      if s[0].id == id {
        assert forall i :: 0 <= i < |t| ==> t[i].id != id by {
          forall i | 0 <= i < |t| ensures t[i].id != id {
            assert t[i] == s[i + 1];
          }
        }
        WithoutAbsentId(t, id);
      } else {
        var i :| 0 <= i < |s| && s[i].id == id;
        assert t[i - 1].id == id;
        WithoutPresentId(t, id);
      }
    }
  }

  class Banner {
    var announcements: seq<Shown>
    var dismissed: seq<string>
    var currentIndex: nat
    /** The browser's storage, as far as the banner uses it. */
    var storage: map<string, seq<string>>

    constructor(stored: map<string, seq<string>>)
      ensures announcements == [] && dismissed == [] && currentIndex == 0 && storage == stored
    {
      announcements := [];
      dismissed := [];
      currentIndex := 0;
      storage := stored;
    }

    /** The ids the user has dismissed, `'[]'` when nothing is stored. */
    function Stored(userId: Option<string>): seq<string>
      reads this
    {
      var key := StorageKey(userId);
      if key in storage then storage[key] else []
    }

    /** `fetchAnnouncements`: the active announcements minus the user's dismissed ones; the index is kept. */
    method Load(active: seq<Shown>, userId: Option<string>)
      modifies this`announcements, this`dismissed
      ensures dismissed == old(Stored(userId))
      ensures announcements == NotDismissed(active, dismissed)
    {
      var ids := Stored(userId);
      announcements := NotDismissed(active, ids);
      dismissed := ids;
    }

    /**
     * `handleDismiss`: the id joins the dismissed list, which is stored
     * under the user's key; that announcement leaves the list; the index
     * goes back to 0 when it stood on the last announcement or beyond.
     */
    method Dismiss(id: string, userId: Option<string>)
      modifies this
      ensures dismissed == old(dismissed) + [id]
      ensures storage == old(storage)[StorageKey(userId) := dismissed]
      ensures announcements == WithoutId(old(announcements), id)
      ensures currentIndex == if old(currentIndex) + 1 >= |old(announcements)| then 0 else old(currentIndex)
    {
      var newDismissed := dismissed + [id];
      dismissed := newDismissed;
      storage := storage[StorageKey(userId) := newDismissed];
      var before := announcements;
      announcements := WithoutId(announcements, id);
      if currentIndex + 1 >= |before| {
        currentIndex := 0;
      }
    }

    /** `handleNext`, shown only with more than one announcement. */
    method Next()
      requires |announcements| > 0
      modifies this`currentIndex
      ensures currentIndex == (old(currentIndex) + 1) % |announcements|
      ensures currentIndex < |announcements|
    {
      currentIndex := (currentIndex + 1) % |announcements|;
    }

    /** `handlePrev`, shown only with more than one announcement. */
    method Prev()
      requires |announcements| > 0
      modifies this`currentIndex
      ensures currentIndex == (old(currentIndex) - 1 + |announcements|) % |announcements|
      ensures currentIndex < |announcements|
    {
      currentIndex := (currentIndex - 1 + |announcements|) % |announcements|;
    }

    /** What the banner renders: nothing without announcements or when the index has none. */
    function Current(): (r: Option<Shown>)
      reads this
      ensures r.Some? <==> currentIndex < |announcements|
      ensures r.Some? ==> r.value == announcements[currentIndex]
    {
      if currentIndex < |announcements| then Some(announcements[currentIndex]) else None
    }
  }

  /**
   * Dismissing the announcement on screen leaves the index on an
   * announcement whenever one is left: the shortened list is one shorter,
   * and an index on its last place has gone back to 0.
   */
  lemma DismissKeepsIndexInRange(s: seq<Shown>, index: nat)
    requires DistinctIds(s) && index < |s|
    ensures var rest := WithoutId(s, s[index].id);
      var next := if index + 1 >= |s| then 0 else index;
      |rest| == |s| - 1 && (rest != [] ==> next < |rest|)
  {
    WithoutPresentId(s, s[index].id);
  }

  /** Next and previous undo each other. */
  lemma NextPrevInverse(i: nat, n: nat)
    requires i < n
    ensures ((i + 1) % n - 1 + n) % n == i
    ensures ((i - 1 + n) % n + 1) % n == i
  {
    if i + 1 < n {
      ModBelow(i + 1, n);
      ModAbove(i + n, n);
    } else {
      ModAbove(i + 1, n);
      ModAbove(n - 1 + n, n);
    }
    if i > 0 {
      ModBelow(i - 1 + n - n, n);
      ModAbove(i - 1 + n, n);
      ModBelow(i, n);
    } else {
      ModBelow(n - 1, n);
      ModAbove(n, n);
    }
  }

  lemma ModBelow(x: int, n: int)
    requires 0 <= x < n
    ensures x % n == x
  {
  }

  lemma ModAbove(x: int, n: int)
    requires 0 < n <= x < 2 * n
    ensures x % n == x - n
  {
  }

  datatype BannerClass = InfoBanner | WarningBanner | AlertBanner | SuccessBanner

  /** `getTypeClass`, with `getTypeIcon` alike: an unknown type is shown as information. */
  function TypeClass(kind: string): (c: BannerClass)
    ensures c == InfoBanner <==> kind !in {"warning", "alert", "success"}
    ensures c == WarningBanner <==> kind == "warning"
    ensures c == AlertBanner <==> kind == "alert"
    ensures c == SuccessBanner <==> kind == "success"
  {
    if kind == "warning" then WarningBanner
    else if kind == "alert" then AlertBanner
    else if kind == "success" then SuccessBanner
    else InfoBanner
  }
}
