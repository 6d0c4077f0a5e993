/** src/components/FlipbookLayout.tsx: the reading session around the viewer. Page navigation is
    clamped, bookmarks stay a strictly ascending list, auto-flip wraps around after the last page,
    and the keyboard shortcuts dispatch onto those handlers.

    The session state is a record, `Session`. The class `ViewerSession` holds the same fields and
    changes them in place. Each of its handlers is specified by a function from the old record to
    the new one. */
module FlipbookLayout {
  import opened Common
  import opened Types

  /** `Math.max(1, Math.min(pageNumber, totalPages))`. */
  function ClampPage(pageNumber: int, totalPages: int): (r: int)
    ensures r >= 1
    ensures totalPages >= 1 ==> r <= totalPages
    ensures 1 <= pageNumber <= totalPages ==> r == pageNumber
    ensures r == 1 <==> pageNumber <= 1 || totalPages <= 1
    ensures pageNumber >= totalPages >= 1 ==> r == totalPages
  {
    Max(1, Min(pageNumber, totalPages))
  }

  lemma ClampPageIdempotent(pageNumber: int, totalPages: int)
    ensures ClampPage(ClampPage(pageNumber, totalPages), totalPages) == ClampPage(pageNumber, totalPages)
  {
  }

  /** The auto-flip timer's step: the next page, or back to page 1 after the last. */
  function AutoFlipNext(page: int, totalPages: int): (r: int)
    ensures 1 <= page <= totalPages ==> 1 <= r <= totalPages
    ensures r == 1 || r == page + 1
  {
    if page < totalPages then page + 1 else 1
  }

  /** The page after `ticks` auto-flip steps. */
  function AutoFlipAfter(page: int, totalPages: int, ticks: nat): int
    decreases ticks
  {
    if ticks == 0 then page else AutoFlipAfter(AutoFlipNext(page, totalPages), totalPages, ticks - 1)
  }

  /** Auto-flip walks the pages round robin: after k ticks from page p it shows page
      ((p - 1 + k) mod N) + 1. */
  lemma {:induction false} AutoFlipIsRotation(page: int, totalPages: int, ticks: nat)
    requires 1 <= page <= totalPages
    ensures AutoFlipAfter(page, totalPages, ticks) == (page - 1 + ticks) % totalPages + 1
    decreases ticks
  {
    if ticks > 0 {
      var next := AutoFlipNext(page, totalPages);
      AutoFlipIsRotation(next, totalPages, ticks - 1);
      if page == totalPages {
        assert (page - 1 + ticks) % totalPages == (ticks - 1 + totalPages) % totalPages;
        ModAddModulus(ticks - 1, totalPages);
      }
    }
  }

  /** N ticks bring the reader back to the page where auto-flip started. */
  lemma AutoFlipFullCircle(page: int, totalPages: int)
    requires 1 <= page <= totalPages
    ensures AutoFlipAfter(page, totalPages, totalPages) == page
  {
    AutoFlipIsRotation(page, totalPages, totalPages);
    ModAddModulus(page - 1, totalPages);
  }

  predicate StrictlySorted(s: seq<int>) {
    forall i, j :: 0 <= i < j < |s| ==> s[i] < s[j]
  }

  /** `push` then `sort((a, b) => a - b)` on an ascending list: `x` goes before the first larger
      entry. */
  function Insert(s: seq<int>, x: int): (r: seq<int>)
    ensures multiset(r) == multiset(s + [x])
  {
    if s == [] || x < s[0] then
      [x] + s
    else
      assert s == [s[0]] + s[1..];
      [s[0]] + Insert(s[1..], x)
  }

  /** Inserting a new value into an ascending list keeps it ascending, so the result is the sorted
      list with `x` added. */
  lemma {:induction false} InsertAbove(s: seq<int>, x: int, bound: int)
    requires forall i :: 0 <= i < |s| ==> bound < s[i]
    requires bound < x
    ensures forall i :: 0 <= i < |Insert(s, x)| ==> bound < Insert(s, x)[i]
  {
    if s != [] && x >= s[0] {
      InsertAbove(s[1..], x, bound);
    }
  }

  lemma {:induction false} InsertKeepsSorted(s: seq<int>, x: int)
    requires StrictlySorted(s) && x !in s
    ensures StrictlySorted(Insert(s, x))
  {
    if s == [] || x < s[0] {
      ConsKeepsSorted(x, s);
    } else {
      var tail := s[1..];
      assert StrictlySorted(tail) && x !in tail;
      InsertKeepsSorted(tail, x);
      assert forall i :: 0 <= i < |tail| ==> s[0] < tail[i];
      InsertAbove(tail, x, s[0]);
      ConsKeepsSorted(s[0], Insert(tail, x));
    }
  }

  lemma ConsKeepsSorted(h: int, t: seq<int>)
    requires StrictlySorted(t) && (t == [] || h < t[0])
    ensures StrictlySorted([h] + t)
  {
    var r := [h] + t;
    forall i, j | 0 <= i < j < |r| ensures r[i] < r[j] {
      if i == 0 {
        assert r[j] == t[j - 1];
        if j > 1 { assert t[0] < t[j - 1]; }
      } else {
        assert r[i] == t[i - 1] && r[j] == t[j - 1];
      }
    }
  }

  /** `indexOf`: the first position holding `x`, or -1. */
  method IndexOf<T(==)>(s: seq<T>, x: T) returns (index: int)
    ensures -1 <= index < |s|
    ensures index == -1 <==> x !in s
    ensures index >= 0 ==> s[index] == x && x !in s[..index]
  {
    index := 0;
    while index < |s|
      invariant 0 <= index <= |s|
      invariant x !in s[..index]
    {
      if s[index] == x {
        return;
      }
      assert s[..index + 1] == s[..index] + [s[index]];
      index := index + 1;
    }
    assert s[..index] == s;
    index := -1;
  }

  /** On a list without duplicates, splicing out the entry at `i` is filtering out its value. */
  lemma {:induction false} SpliceIsWithout<T>(s: seq<T>, i: int)
    requires NoDuplicates(s) && 0 <= i < |s|
    ensures s[..i] + s[i + 1..] == Without(s, s[i])
  {
    assert s[0] !in s[1..] by {
      forall j | 0 <= j < |s[1..]| ensures s[1..][j] != s[0] { assert s[1..][j] == s[j + 1]; }
    }
    if i == 0 {
      WithoutAbsent(s[1..], s[0]);
    } else {
      assert s[1..][i - 1] == s[i];
      assert NoDuplicates(s[1..]) by {
        forall a, b | 0 <= a < b < |s[1..]| ensures s[1..][a] != s[1..][b] {
          assert s[1..][a] == s[a + 1] && s[1..][b] == s[b + 1];
        }
      }
      SpliceIsWithout(s[1..], i - 1);
      assert s[..i] == [s[0]] + s[1..][..i - 1];
      assert s[i + 1..] == s[1..][i..];
    }
  }

  lemma SortedHasNoDuplicates(s: seq<int>)
    requires StrictlySorted(s)
    ensures NoDuplicates(s)
  {
  }

  lemma WithoutMembership<T>(s: seq<T>, x: T, y: T)
    ensures y in Without(s, x) <==> y in s && y != x
  {
    var r := Without(s, x);
    if y in r {
      var i :| 0 <= i < |r| && r[i] == y;
    }
    if y in s && y != x {
      var i :| 0 <= i < |s| && s[i] == y;
    }
  }

  lemma NonEmptyHasMember(s: seq<int>)
    ensures s != [] ==> s[0] in s
  {
  }

  /** Two ascending lists with the same elements are the same list. */
  lemma {:induction false} SortedByElements(a: seq<int>, b: seq<int>)
    requires StrictlySorted(a) && StrictlySorted(b)
    requires forall y :: y in a <==> y in b
    ensures a == b
  {
    if a == [] {
      NonEmptyHasMember(b);
    } else {
      assert a[0] in a;
      assert b != [] && a[0] in b;
      assert b[0] in b;
      assert b[0] in a;
      assert a[0] == b[0];
      forall y ensures y in a[1..] <==> y in b[1..] {
        if y in a[1..] {
          assert y in a && y != a[0];
          assert y in b;
          assert b == [b[0]] + b[1..];
        }
        if y in b[1..] {
          assert y in b && y != b[0];
          assert y in a;
          assert a == [a[0]] + a[1..];
        }
      }
      SortedByElements(a[1..], b[1..]);
      assert a == [a[0]] + a[1..] && b == [b[0]] + b[1..];
    }
  }

  /** Removing an entry from an ascending list keeps it ascending. */
  lemma WithoutKeepsSorted(bookmarks: seq<int>, p: int)
    requires StrictlySorted(bookmarks) && p in bookmarks
    ensures StrictlySorted(Without(bookmarks, p))
  {
    var r := Without(bookmarks, p);
    SortedHasNoDuplicates(bookmarks);
    var i :| 0 <= i < |bookmarks| && bookmarks[i] == p;
    SpliceIsWithout(bookmarks, i);
    forall a, b | 0 <= a < b < |r| ensures r[a] < r[b] {
      if b < i {
      } else if a < i {
        assert r[b] == bookmarks[b + 1];
      } else {
        assert r[a] == bookmarks[a + 1] && r[b] == bookmarks[b + 1];
      }
    }
  }

  lemma InsertMembership(bookmarks: seq<int>, p: int, y: int)
    ensures y in Insert(bookmarks, p) <==> y in bookmarks || y == p
  {
    var r := Insert(bookmarks, p);
    assert y in r <==> y in multiset(r);
    assert y in bookmarks + [p] <==> y in multiset(bookmarks + [p]);
  }

  /** The bookmark list after `toggleBookmark` on page `p`. */
  function Toggled(bookmarks: seq<int>, p: int): (r: seq<int>)
    ensures StrictlySorted(bookmarks) ==> StrictlySorted(r)
    ensures forall y :: y in r <==> (y in bookmarks && y != p) || (y == p && p !in bookmarks)
  {
    if p in bookmarks then
      var r := Without(bookmarks, p);
      assert forall y :: y in r <==> y in bookmarks && y != p by {
        forall y ensures y in r <==> y in bookmarks && y != p { WithoutMembership(bookmarks, p, y); }
      }
      assert StrictlySorted(bookmarks) ==> StrictlySorted(r) by {
        if StrictlySorted(bookmarks) { WithoutKeepsSorted(bookmarks, p); }
      }
      r
    else
      var r := Insert(bookmarks, p);
      assert StrictlySorted(bookmarks) ==> StrictlySorted(r) by {
        if StrictlySorted(bookmarks) { InsertKeepsSorted(bookmarks, p); }
      }
      assert forall y :: y in r <==> y in bookmarks || y == p by {
        forall y ensures y in r <==> y in bookmarks || y == p { InsertMembership(bookmarks, p, y); }
      }
      r
  }

  /** The body of `toggleBookmark` on a copy of the list: `splice` out the page if `indexOf` finds
      it, otherwise `push` it and sort. */
  method ToggleInCopy(bookmarks: seq<int>, p: int) returns (r: seq<int>)
    requires StrictlySorted(bookmarks)
    ensures r == Toggled(bookmarks, p)
  {
    var index := IndexOf(bookmarks, p);
    if index != -1 {
      ToggleRemovesOnlyThatEntry(bookmarks, index);
      r := bookmarks[..index] + bookmarks[index + 1..];
    } else {
      r := Insert(bookmarks, p);
    }
  }

  /** Removing a bookmark takes out exactly that entry; the rest keep their order. */
  lemma ToggleRemovesOnlyThatEntry(bookmarks: seq<int>, i: int)
    requires StrictlySorted(bookmarks) && 0 <= i < |bookmarks|
    ensures Toggled(bookmarks, bookmarks[i]) == bookmarks[..i] + bookmarks[i + 1..]
  {
    SortedHasNoDuplicates(bookmarks);
    SpliceIsWithout(bookmarks, i);
  }

  /** Adding a bookmark gives the sorted list with that page added. */
  lemma ToggleAddsInOrder(bookmarks: seq<int>, p: int)
    requires StrictlySorted(bookmarks) && p !in bookmarks
    ensures StrictlySorted(Toggled(bookmarks, p))
    ensures multiset(Toggled(bookmarks, p)) == multiset(bookmarks + [p])
  {
  }

  /** Toggling the same page twice gives the original list back. */
  lemma ToggleTwiceRestores(bookmarks: seq<int>, p: int)
    requires StrictlySorted(bookmarks)
    ensures Toggled(Toggled(bookmarks, p), p) == bookmarks
  {
    SortedByElements(Toggled(Toggled(bookmarks, p), p), bookmarks);
  }

  /** `Math.max(0.5, Math.min(1.7, zoom))`. */
  function ClampZoom(zoom: real): (r: real)
    ensures 0.5 <= r <= 1.7
    ensures 0.5 <= zoom <= 1.7 ==> r == zoom
    ensures zoom > 1.7 ==> r == 1.7
    ensures zoom < 0.5 ==> r == 0.5
  {
    if zoom > 1.7 then 1.7 else if zoom < 0.5 then 0.5 else zoom
  }

  /** The previous-page arrow's `disabled` test. */
  predicate PrevDisabled(currentPage: int) {
    currentPage == 1
  }

  /** The next-page arrow's `disabled` test as the source writes it. */
  predicate NextDisabledAsWritten(currentPage: int, totalPages: int) {
    currentPage >= totalPages - 1
  }

  /** The next-page arrow's `disabled` test as intended: only on the last page. */
  predicate NextDisabled(currentPage: int, totalPages: int) {
    currentPage >= totalPages
  }

  /** An arrow is disabled exactly when the page change it would request leaves the page as it is. */
  lemma ArrowsDisabledExactlyWhenStuck(currentPage: int, totalPages: int)
    requires 1 <= currentPage <= totalPages
    ensures PrevDisabled(currentPage) <==> ClampPage(currentPage - 1, totalPages) == currentPage
    ensures NextDisabled(currentPage, totalPages) <==> ClampPage(currentPage + 1, totalPages) == currentPage
  {
  }

  /** On the second-to-last page the arrow as written is disabled although clicking it would
      move to the last page. */
  lemma NextArrowAsWrittenBlocksLastPage(totalPages: int)
    requires totalPages >= 2
    ensures NextDisabledAsWritten(totalPages - 1, totalPages)
    ensures ClampPage(totalPages - 1 + 1, totalPages) == totalPages != totalPages - 1
    ensures !NextDisabled(totalPages - 1, totalPages)
  {
  }

  /** The keys of `toggleSetting` that this model distinguishes; the other keys of
      `FlipbookSettings` hold no boolean. */
  datatype SettingKey = AutoFlipKey | SoundOnKey | ShowThumbnailsKey | ZoomLevelKey

  datatype Session = Session(
    currentPage: int,
    totalPages: nat,
    settings: FlipbookSettings,
    isThumbnailView: bool,
    isFullscreen: bool,
    showBookmarks: bool,
    showKeyboardHelp: bool,
    showShortcutToast: bool,
    showAutoFlipSettings: bool,
    showAnimationStyleControls: bool,
    showVoicePanel: bool)

  /** What every handler keeps: the page is in range (page 1 when the story has no pages), the
      bookmarks ascend without repeats, and the zoom lies in [0.5, 1.7]. */
  predicate SessionValid(s: Session) {
    && 1 <= s.currentPage
    && (s.currentPage <= s.totalPages || s.currentPage == 1)
    && StrictlySorted(s.settings.bookmarks)
    && 0.5 <= s.settings.zoomLevel <= 1.7
  }

  function InitialSettings(): FlipbookSettings {
    FlipbookSettings(false, 3000, true, false, 1.7, [], "", [], 0, Flip)
  }

  function InitialSession(totalPages: nat): (s: Session)
    ensures SessionValid(s)
  {
    Session(1, totalPages, InitialSettings(), false, false, false, false, true, false, false, false)
  }

  function PageChanged(s: Session, pageNumber: int, fromNavBar: bool): Session {
    s.(currentPage := ClampPage(pageNumber, s.totalPages),
       isThumbnailView := if fromNavBar then false else s.isThumbnailView)
  }

  function AutoFlipToggled(s: Session): Session {
    s.(settings := s.settings.(autoFlip := !s.settings.autoFlip),
       showAutoFlipSettings := s.showAutoFlipSettings || !s.settings.autoFlip)
  }

  function SettingToggled(s: Session, key: SettingKey): Session {
    match key
    case ZoomLevelKey => s
    case AutoFlipKey => AutoFlipToggled(s)
    case SoundOnKey => s.(settings := s.settings.(soundOn := !s.settings.soundOn))
    case ShowThumbnailsKey => s.(settings := s.settings.(showThumbnails := !s.settings.showThumbnails))
  }

  function ZoomUpdated(s: Session, zoom: real): Session {
    s.(settings := s.settings.(zoomLevel := ClampZoom(zoom)))
  }

  function BookmarkToggled(s: Session): Session {
    s.(settings := s.settings.(bookmarks := Toggled(s.settings.bookmarks, s.currentPage)))
  }

  function BookmarkVisited(s: Session, pageNumber: int): Session {
    PageChanged(s, pageNumber, true).(showBookmarks := false)
  }

  function AutoFlipTicked(s: Session): Session {
    s.(currentPage := AutoFlipNext(s.currentPage, s.totalPages))
  }

  /** What the `switch` in `handleKeyDown` does with a key while the help panel is closed. */
  datatype Command = NextPage | PreviousPage | FirstPage | LastPage | ZoomIn | ZoomOut | ZoomReset
    | ToggleFullscreen | ToggleThumbnails | ToggleAutoFlip | ToggleBookmark | ToggleSound
    | OpenHelp | CloseAll | NoCommand

  function CommandOf(key: string): Command {
    if key == "ArrowRight" then NextPage
    else if key == "ArrowLeft" then PreviousPage
    else if key == "Home" then FirstPage
    else if key == "End" then LastPage
    else if key == "+" || key == "=" then ZoomIn
    else if key == "-" then ZoomOut
    else if key == "0" then ZoomReset
    else if key == "f" || key == "F" then ToggleFullscreen
    else if key == "t" || key == "T" then ToggleThumbnails
    else if key == "a" || key == "A" then ToggleAutoFlip
    else if key == "b" || key == "B" then ToggleBookmark
    else if key == "s" || key == "S" then ToggleSound
    else if key == "h" || key == "H" then OpenHelp
    else if key == "Escape" then CloseAll
    else NoCommand
  }

  /** `e.key === 'Escape' || e.key.toLowerCase() === 'h'`. */
  predicate ClosesHelp(key: string) {
    key == "Escape" || ToLower(key) == "h"
  }

  lemma ClosesHelpKeys(key: string)
    ensures ClosesHelp(key) <==> key == "Escape" || key == "h" || key == "H"
  {
    if |key| == 1 {
      assert ToLower(key)[0] == LowerChar(key[0]);
      assert ToLower(key) == "h" <==> key == "h" || key == "H";
    } else {
      assert ToLower(key) != "h";
    }
  }

  /** One shortcut's effect; `documentFullscreen` is whether the document is in full-screen mode. */
  function CommandDone(s: Session, command: Command, documentFullscreen: bool): Session {
    match command
    case NextPage => PageChanged(s, s.currentPage + 1, false)
    case PreviousPage => PageChanged(s, s.currentPage - 1, false)
    case FirstPage => PageChanged(s, 1, false)
    case LastPage => PageChanged(s, s.totalPages, false)
    case ZoomIn => ZoomUpdated(s, s.settings.zoomLevel + 0.1)
    case ZoomOut => ZoomUpdated(s, s.settings.zoomLevel - 0.1)
    case ZoomReset => ZoomUpdated(s, 1.0)
    case ToggleFullscreen => s.(isFullscreen := !documentFullscreen)
    case ToggleThumbnails => s.(isThumbnailView := !s.isThumbnailView)
    case ToggleAutoFlip => SettingToggled(s, AutoFlipKey)
    case ToggleBookmark => BookmarkToggled(s)
    case ToggleSound => SettingToggled(s, SoundOnKey)
    case OpenHelp => s.(showKeyboardHelp := true, showShortcutToast := false)
    case CloseAll =>
      s.(showBookmarks := false, showAnimationStyleControls := false, showAutoFlipSettings := false,
         showKeyboardHelp := false, showVoicePanel := false)
    case NoCommand => s
  }

  /** `handleKeyDown`: with the help panel open a key can only close it. */
  function KeyHandled(s: Session, key: string, documentFullscreen: bool): Session {
    if s.showKeyboardHelp then
      if ClosesHelp(key) then s.(showKeyboardHelp := false) else s
    else CommandDone(s, CommandOf(key), documentFullscreen)
  }

  /** The navigation handlers keep the session invariant. */
  lemma NavigationPreservesValid(s: Session, pageNumber: int, fromNavBar: bool)
    requires SessionValid(s)
    ensures SessionValid(PageChanged(s, pageNumber, fromNavBar))
    ensures SessionValid(BookmarkVisited(s, pageNumber))
    ensures SessionValid(AutoFlipTicked(s))
  {
    assert PageChanged(s, pageNumber, fromNavBar).settings == s.settings;
    assert BookmarkVisited(s, pageNumber).settings == s.settings;
    assert AutoFlipTicked(s).settings == s.settings;
  }

  /** The settings handlers keep the session invariant. */
  lemma SettingsPreserveValid(s: Session, key: SettingKey, zoom: real)
    requires SessionValid(s)
    ensures SessionValid(SettingToggled(s, key))
    ensures SessionValid(ZoomUpdated(s, zoom))
  {
    ToggleKeepsValid(s, key);
    ZoomKeepsValid(s, zoom);
  }

  lemma ToggleKeepsValid(s: Session, key: SettingKey)
    requires SessionValid(s)
    ensures SessionValid(SettingToggled(s, key))
  {
    var t := SettingToggled(s, key);
    assert t.settings.bookmarks == s.settings.bookmarks && t.settings.zoomLevel == s.settings.zoomLevel
      && t.currentPage == s.currentPage && t.totalPages == s.totalPages by {
      match key
      case AutoFlipKey =>
      case SoundOnKey =>
      case ShowThumbnailsKey =>
      case ZoomLevelKey =>
    }
  }

  lemma ZoomKeepsValid(s: Session, zoom: real)
    requires SessionValid(s)
    ensures SessionValid(ZoomUpdated(s, zoom))
  {
    assert ZoomUpdated(s, zoom).settings.bookmarks == s.settings.bookmarks;
  }

  /** Toggling a bookmark keeps the session invariant. */
  lemma BookmarkTogglePreservesValid(s: Session)
    requires SessionValid(s)
    ensures SessionValid(BookmarkToggled(s))
  {
    var t := BookmarkToggled(s);
    assert t.settings.zoomLevel == s.settings.zoomLevel && t.currentPage == s.currentPage;
  }

  lemma CommandPreservesValid(s: Session, command: Command, documentFullscreen: bool)
    requires SessionValid(s)
    ensures SessionValid(CommandDone(s, command, documentFullscreen))
  {
    var t := CommandDone(s, command, documentFullscreen);
    match command
    case NextPage => NavigationPreservesValid(s, s.currentPage + 1, false);
    case PreviousPage => NavigationPreservesValid(s, s.currentPage - 1, false);
    case FirstPage => NavigationPreservesValid(s, 1, false);
    case LastPage => NavigationPreservesValid(s, s.totalPages, false);
    case ZoomIn => SettingsPreserveValid(s, ZoomLevelKey, s.settings.zoomLevel + 0.1);
    case ZoomOut => SettingsPreserveValid(s, ZoomLevelKey, s.settings.zoomLevel - 0.1);
    case ZoomReset => SettingsPreserveValid(s, ZoomLevelKey, 1.0);
    case ToggleAutoFlip => SettingsPreserveValid(s, AutoFlipKey, 1.0);
    case ToggleSound => SettingsPreserveValid(s, SoundOnKey, 1.0);
    case ToggleBookmark => BookmarkTogglePreservesValid(s);
    case ToggleFullscreen => ValidIgnoresPanels(s, t);
    case ToggleThumbnails => ValidIgnoresPanels(s, t);
    case OpenHelp => ValidIgnoresPanels(s, t);
    case CloseAll => ValidIgnoresPanels(s, t);
    case NoCommand =>
  }

  /** The invariant is about the page and the settings only. */
  lemma ValidIgnoresPanels(s: Session, t: Session)
    requires SessionValid(s)
    requires t.currentPage == s.currentPage && t.totalPages == s.totalPages && t.settings == s.settings
    ensures SessionValid(t)
  {
  }

  lemma KeyHandlingPreservesValid(s: Session, key: string, documentFullscreen: bool)
    requires SessionValid(s)
    ensures SessionValid(KeyHandled(s, key, documentFullscreen))
  {
    if !s.showKeyboardHelp {
      CommandPreservesValid(s, CommandOf(key), documentFullscreen);
    }
  }

  /** While the shortcut help is open no key navigates or changes a setting; Escape or h (either
      case) closes the help and nothing else. */
  lemma HelpOpenOnlyClosesHelp(s: Session, key: string, documentFullscreen: bool)
    requires s.showKeyboardHelp
    ensures var t := KeyHandled(s, key, documentFullscreen);
      && t.currentPage == s.currentPage && t.settings == s.settings
      && t.isThumbnailView == s.isThumbnailView && t.isFullscreen == s.isFullscreen
      && (t.showKeyboardHelp <==> !(key == "Escape" || key == "h" || key == "H"))
  {
    ClosesHelpKeys(key);
  }

  /** The four navigation keys request the next, previous, first and last page, clamped, and
      change nothing else. */
  lemma NavigationKeysClamp(s: Session, documentFullscreen: bool)
    requires !s.showKeyboardHelp
    ensures KeyHandled(s, "ArrowRight", documentFullscreen) == s.(currentPage := ClampPage(s.currentPage + 1, s.totalPages))
    ensures KeyHandled(s, "ArrowLeft", documentFullscreen) == s.(currentPage := ClampPage(s.currentPage - 1, s.totalPages))
    ensures KeyHandled(s, "Home", documentFullscreen) == s.(currentPage := 1)
    ensures s.totalPages >= 1 ==> KeyHandled(s, "End", documentFullscreen) == s.(currentPage := s.totalPages)
  {
    assert CommandOf("ArrowRight") == NextPage;
    PageChangedKeepsRest(s, s.currentPage + 1);
    assert CommandOf("ArrowLeft") == PreviousPage;
    PageChangedKeepsRest(s, s.currentPage - 1);
    assert CommandOf("Home") == FirstPage;
    PageChangedKeepsRest(s, 1);
    assert CommandOf("End") == LastPage;
    PageChangedKeepsRest(s, s.totalPages);
  }

  lemma PageChangedKeepsRest(s: Session, pageNumber: int)
    ensures PageChanged(s, pageNumber, false) == s.(currentPage := ClampPage(pageNumber, s.totalPages))
  {
  }

  /** Only the four navigation keys move the page; the other shortcuts keep it. */
  lemma OtherKeysKeepThePage(s: Session, key: string, documentFullscreen: bool)
    requires key != "ArrowRight" && key != "ArrowLeft" && key != "Home" && key != "End"
    ensures KeyHandled(s, key, documentFullscreen).currentPage == s.currentPage
  {
    if !s.showKeyboardHelp {
      NavigationCommandKeys(key);
      CommandKeepsPage(s, CommandOf(key), documentFullscreen);
    }
  }

  /** The four navigation commands come from their four keys only. */
  lemma NavigationCommandKeys(key: string)
    ensures CommandOf(key) == NextPage ==> key == "ArrowRight"
    ensures CommandOf(key) == PreviousPage ==> key == "ArrowLeft"
    ensures CommandOf(key) == FirstPage ==> key == "Home"
    ensures CommandOf(key) == LastPage ==> key == "End"
  {
  }

  lemma CommandKeepsPage(s: Session, command: Command, documentFullscreen: bool)
    requires command != NextPage && command != PreviousPage && command != FirstPage && command != LastPage
    ensures CommandDone(s, command, documentFullscreen).currentPage == s.currentPage
  {
    match command
    case ZoomIn =>
    case ZoomOut =>
    case ZoomReset =>
    case ToggleFullscreen =>
    case ToggleThumbnails =>
    case ToggleAutoFlip =>
    case ToggleBookmark =>
    case ToggleSound =>
    case OpenHelp =>
    case CloseAll =>
    case NoCommand =>
  }

  /** `toggleSetting('zoomLevel')` changes nothing. */
  lemma ZoomKeyIsNoOp(s: Session)
    ensures SettingToggled(s, ZoomLevelKey) == s
  {
  }

  /** Toggling the sound or thumbnail setting twice restores the session. */
  lemma ToggleSettingTwiceRestores(s: Session, key: SettingKey)
    requires key == SoundOnKey || key == ShowThumbnailsKey
    ensures SettingToggled(SettingToggled(s, key), key) == s
  {
    var t := SettingToggled(s, key);
    var u := SettingToggled(t, key);
    assert u.settings == s.settings by {
      if key == SoundOnKey {
        assert t.settings.soundOn == !s.settings.soundOn;
      } else {
        assert t.settings.showThumbnails == !s.settings.showThumbnails;
      }
    }
    assert u == s.(settings := u.settings);
  }

  /** Toggling auto-flip twice restores the settings; the panel it opened stays open. */
  lemma AutoFlipToggleTwiceRestoresSettings(s: Session)
    ensures SettingToggled(SettingToggled(s, AutoFlipKey), AutoFlipKey).settings == s.settings
    ensures SettingToggled(SettingToggled(s, AutoFlipKey), AutoFlipKey).showAutoFlipSettings
  {
  }

  /** The sound key flips the sound flag and no other setting. */
  lemma SoundToggleFlipsOnlySound(s: Session)
    ensures var t := SettingToggled(s, SoundOnKey);
      t.settings.soundOn == !s.settings.soundOn && t.settings.(soundOn := s.settings.soundOn) == s.settings
  {
  }

  /** The auto-flip key flips the auto-flip flag and no other setting. */
  lemma AutoFlipToggleFlipsOnlyAutoFlip(s: Session)
    ensures var t := SettingToggled(s, AutoFlipKey);
      t.settings.autoFlip == !s.settings.autoFlip && t.settings.(autoFlip := s.settings.autoFlip) == s.settings
  {
  }

  /** The session's state, updated in place by its handlers. */
  class ViewerSession {
    var currentPage: int
    const totalPages: nat
    var settings: FlipbookSettings
    var isThumbnailView: bool
    var isFullscreen: bool
    var showBookmarks: bool
    var showKeyboardHelp: bool
    var showShortcutToast: bool
    var showAutoFlipSettings: bool
    var showAnimationStyleControls: bool
    var showVoicePanel: bool

    function State(): Session
      reads this
    {
      Session(currentPage, totalPages, settings, isThumbnailView, isFullscreen, showBookmarks,
              showKeyboardHelp, showShortcutToast, showAutoFlipSettings, showAnimationStyleControls,
              showVoicePanel)
    }

    ghost predicate Valid()
      reads this
    {
      SessionValid(State())
    }

    constructor (pageCount: nat)
      ensures Valid()
      ensures State() == InitialSession(pageCount)
    {
      currentPage, totalPages, settings := 1, pageCount, InitialSettings();
      isThumbnailView, isFullscreen, showBookmarks, showKeyboardHelp := false, false, false, false;
      showShortcutToast, showAutoFlipSettings := true, false;
      showAnimationStyleControls, showVoicePanel := false, false;
    }

    /** `handlePageChange`: clamps the page; a request from the navigation bar leaves the
        thumbnail view. */
    method HandlePageChange(pageNumber: int, fromNavBar: bool)
      requires Valid()
      modifies this`currentPage, this`isThumbnailView
      ensures Valid()
      ensures State() == PageChanged(old(State()), pageNumber, fromNavBar)
    {
      currentPage := Max(1, Min(pageNumber, totalPages));
      if fromNavBar {
        isThumbnailView := false;
      }
    }

    /** `toggleAutoFlip`: switching auto-flip on also opens its settings panel. */
    method ToggleAutoFlip()
      requires Valid()
      modifies this`settings, this`showAutoFlipSettings
      ensures Valid()
      ensures State() == AutoFlipToggled(old(State()))
    {
      var newAutoFlip := !settings.autoFlip;
      if newAutoFlip {
        showAutoFlipSettings := true;
      }
      settings := settings.(autoFlip := newAutoFlip);
    }

    /** `toggleSetting`. */
    method ToggleSetting(key: SettingKey)
      requires Valid()
      modifies this`settings, this`showAutoFlipSettings
      ensures Valid()
      ensures State() == SettingToggled(old(State()), key)
    {
      if key == ZoomLevelKey {
        return;
      }
      if key == AutoFlipKey {
        ToggleAutoFlip();
      } else if key == SoundOnKey {
        settings := settings.(soundOn := !settings.soundOn);
      } else {
        settings := settings.(showThumbnails := !settings.showThumbnails);
      }
    }

    /** `updateZoomLevel`. */
    method UpdateZoomLevel(zoom: real)
      requires Valid()
      modifies this`settings
      ensures Valid()
      ensures State() == ZoomUpdated(old(State()), zoom)
    {
      var clampedZoom := if zoom > 1.7 then 1.7 else if zoom < 0.5 then 0.5 else zoom;
      settings := settings.(zoomLevel := clampedZoom);
    }

    /** `toggleBookmark`. */
    method ToggleBookmark()
      requires Valid()
      modifies this`settings
      ensures Valid()
      ensures State() == BookmarkToggled(old(State()))
    {
      BookmarkTogglePreservesValid(State());
      var bookmarks := ToggleInCopy(settings.bookmarks, currentPage);
      settings := settings.(bookmarks := bookmarks);
    }

    /** `goToBookmark`: navigates as the navigation bar does and closes the bookmark list. */
    method GoToBookmark(pageNumber: int)
      requires Valid()
      modifies this`currentPage, this`isThumbnailView, this`showBookmarks
      ensures Valid()
      ensures State() == BookmarkVisited(old(State()), pageNumber)
    {
      HandlePageChange(pageNumber, true);
      showBookmarks := false;
    }

    /** One tick of the auto-flip interval. */
    method AutoFlipTick()
      requires Valid()
      modifies this`currentPage
      ensures Valid()
      ensures State() == AutoFlipTicked(old(State()))
    {
      currentPage := if currentPage < totalPages then currentPage + 1 else 1;
    }

    /** `handleKeyDown`. */
    method HandleKeyDown(key: string, documentFullscreen: bool)
      requires Valid()
      modifies this`currentPage, this`settings, this`isThumbnailView, this`isFullscreen
      modifies this`showBookmarks, this`showKeyboardHelp, this`showShortcutToast
      modifies this`showAutoFlipSettings, this`showAnimationStyleControls, this`showVoicePanel
      ensures Valid()
      ensures State() == KeyHandled(old(State()), key, documentFullscreen)
    {
      if showKeyboardHelp {
        if key == "Escape" || ToLower(key) == "h" {
          showKeyboardHelp := false;
        }
        return;
      }
      var command := CommandOf(key);
      if command.NextPage? || command.PreviousPage? || command.FirstPage? || command.LastPage? {
        RunNavigation(command);
      } else if command.ZoomIn? || command.ZoomOut? || command.ZoomReset? {
        RunZoom(command);
      } else {
        RunToggle(command, documentFullscreen);
      }
    }

    /** The `switch` cases of `handleKeyDown` that move the page. */
    method RunNavigation(command: Command)
      requires Valid()
      requires command.NextPage? || command.PreviousPage? || command.FirstPage? || command.LastPage?
      modifies this`currentPage, this`isThumbnailView
      ensures Valid()
      ensures State() == CommandDone(old(State()), command, false)
    {
      match command
      case NextPage => HandlePageChange(currentPage + 1, false);
      case PreviousPage => HandlePageChange(currentPage - 1, false);
      case FirstPage => HandlePageChange(1, false);
      case LastPage => HandlePageChange(totalPages, false);
    }

    /** The `switch` cases of `handleKeyDown` that zoom. */
    method RunZoom(command: Command)
      requires Valid()
      requires command.ZoomIn? || command.ZoomOut? || command.ZoomReset?
      modifies this`settings
      ensures Valid()
      ensures State() == CommandDone(old(State()), command, false)
    {
      match command
      case ZoomIn => UpdateZoomLevel(settings.zoomLevel + 0.1);
      case ZoomOut => UpdateZoomLevel(settings.zoomLevel - 0.1);
      case ZoomReset => UpdateZoomLevel(1.0);
    }

    /** The remaining `switch` cases of `handleKeyDown`: toggles, the help panel and Escape. */
    method RunToggle(command: Command, documentFullscreen: bool)
      requires Valid()
      requires !(command.NextPage? || command.PreviousPage? || command.FirstPage? || command.LastPage?)
      requires !(command.ZoomIn? || command.ZoomOut? || command.ZoomReset?)
      modifies this`settings, this`isThumbnailView, this`isFullscreen
      modifies this`showBookmarks, this`showKeyboardHelp, this`showShortcutToast
      modifies this`showAutoFlipSettings, this`showAnimationStyleControls, this`showVoicePanel
      ensures Valid()
      ensures State() == CommandDone(old(State()), command, documentFullscreen)
    {
      match command
      case ToggleFullscreen => isFullscreen := !documentFullscreen;
      case ToggleThumbnails => isThumbnailView := !isThumbnailView;
      case ToggleAutoFlip => ToggleSetting(AutoFlipKey);
      case ToggleBookmark => ToggleBookmark();
      case ToggleSound => ToggleSetting(SoundOnKey);
      case OpenHelp =>
        showKeyboardHelp := true;
        showShortcutToast := false;
      case CloseAll =>
        showBookmarks, showAnimationStyleControls, showAutoFlipSettings := false, false, false;
        showKeyboardHelp, showVoicePanel := false, false;
      case NoCommand =>
    }
  }
}
