/** The navigation scan of `handleMenuAction` in utils/scenario-runner.js:
    which first note the page opens, at which size, and the TypeError that
    makes it give up. The HTML it builds along the way is not modelled. */
module MenuAction {
  import opened Wrappers
  import opened JsValue

  const DefaultWidth := 400
  const DefaultHeight := 600

  /** The note opened first, and the window size it asks for. */
  datatype FirstItem = FirstItem(path: Value, width: Value, height: Value)

  /** What scanning a part of the menu gives: the first note in it, if any,
      or the message of the TypeError thrown there. */
  type Scan = Result<Option<FirstItem>>

  /** `topLevelItem.type === 'submenu' && topLevelItem.name && Array.isArray(topLevelItem.items)`. */
  predicate IsSubmenu(top: Value) {
    IsText(Get(top, "type"), "submenu") && Truthy(Get(top, "name")) && IsArray(Get(top, "items"))
  }

  /** `secondLevelItem.name && Array.isArray(secondLevelItem.actions)`. */
  predicate IsEntry(item: Value) {
    Truthy(Get(item, "name")) && IsArray(Get(item, "actions"))
  }

  /** The callback of `actions.find`: `a.type === 'show_markdown_note' && a.file_path`. */
  predicate IsNote(a: Value) {
    IsText(Get(a, "type"), "show_markdown_note") && Truthy(Get(a, "file_path"))
  }

  /** The note a found action opens, with the 400 x 600 default size. */
  function NoteItem(md: Value): (f: FirstItem)
    requires IsNote(md)
    ensures f.path == Get(md, "file_path").value && Truthy(Some(f.path))
    ensures Truthy(Get(md, "width")) ==> f.width == Get(md, "width").value
    ensures !Truthy(Get(md, "width")) ==> f.width == Num(DefaultWidth)
    ensures Truthy(Get(md, "height")) ==> f.height == Get(md, "height").value
    ensures !Truthy(Get(md, "height")) ==> f.height == Num(DefaultHeight)
  {
    FirstItem(Get(md, "file_path").value, OrElse(Get(md, "width"), Num(DefaultWidth)),
              OrElse(Get(md, "height"), Num(DefaultHeight)))
  }

  /** The scan keeps the earlier note; a throw stops it. */
  function Then(a: Scan, b: Scan): Scan {
    match a
    case Failure(_) => a
    case Success(f) =>
      match b
      case Failure(_) => b
      case Success(g) => Success(if f.Some? then f else g)
  }

  /** One level-2 item: a `null` item throws on `.name`, a `null` action met
      by `find` before a note throws on `.type`. */
  function ScanItem(item: Value): Scan {
    if item.Null? then Failure(NullRead("name"))
    else if !IsEntry(item) then Success(None)
    else
      var actions := Get(item, "actions").value.items;
      match Find(actions, IsNote)
      case NullAt(_) => Failure(NullRead("type"))
      case NotFound => Success(None)
      case FoundAt(k) => Success(Some(NoteItem(actions[k])))
  }

  /** The level-2 items of one submenu, in order. */
  function ScanItems(items: seq<Value>): Scan {
    if items == [] then Success(None)
    else Then(ScanItems(items[..|items| - 1]), ScanItem(items[|items| - 1]))
  }

  /** One top-level item: a `null` throws on `.type`, anything that is not a
      named submenu with an `items` array is skipped. */
  function ScanTop(top: Value): Scan {
    if top.Null? then Failure(NullRead("type"))
    else if IsSubmenu(top) then ScanItems(Get(top, "items").value.items)
    else Success(None)
  }

  /** The whole menu, in order. */
  function ScanMenu(menu: seq<Value>): Scan {
    if menu == [] then Success(None)
    else Then(ScanMenu(menu[..|menu| - 1]), ScanTop(menu[|menu| - 1]))
  }

  /** The scan state kept by the loop: the `isFirstSubmenuItem` flag and the
      three `firstItem...` variables. */
  function Recorded(isFirst: bool, path: Value, width: Value, height: Value): Scan {
    Success(if isFirst then None else Some(FirstItem(path, width, height)))
  }

  /** The navigation loop of `handleMenuAction`: the first level-2 item, over
      all submenus, with a note is recorded once, guarded by a flag. */
  method Navigate(menu: seq<Value>) returns (r: Scan)
    ensures r == ScanMenu(menu)
  {
    var firstItemPath := Null;
    var firstItemWidth := Num(DefaultWidth);
    var firstItemHeight := Num(DefaultHeight);
    var isFirstSubmenuItem := true;
    var i := 0;
    while i < |menu|
      invariant 0 <= i <= |menu|
      invariant ScanMenu(menu[..i]) == Recorded(isFirstSubmenuItem, firstItemPath, firstItemWidth, firstItemHeight)
    {
      var top := menu[i];
      TopStep(menu, i);
      if top.Null? {
        TopFailAt(menu, i);
        return Failure(NullRead("type"));
      }
      if IsSubmenu(top) {
        var thrown;
        thrown, isFirstSubmenuItem, firstItemPath, firstItemWidth, firstItemHeight :=
          NavigateSubmenu(Get(top, "items").value.items,
                          isFirstSubmenuItem, firstItemPath, firstItemWidth, firstItemHeight);
        if thrown.Some? {
          TopFailAt(menu, i);
          return Failure(thrown.value);
        }
      } else {
        assert ScanTop(top) == Success(None);
      }
      i := i + 1;
    }
    assert menu[..i] == menu;
    return Recorded(isFirstSubmenuItem, firstItemPath, firstItemWidth, firstItemHeight);
  }

  /** The inner loop of the navigation, over the level-2 items of one
      submenu, carrying the flag and the recorded item from before it. */
  method NavigateSubmenu(items: seq<Value>, isFirst0: bool, path0: Value, width0: Value, height0: Value)
    returns (thrown: Option<string>, isFirst: bool, path: Value, width: Value, height: Value)
    ensures thrown.Some? ==> ScanItems(items) == Failure(thrown.value)
    ensures thrown.None? ==>
      Then(Recorded(isFirst0, path0, width0, height0), ScanItems(items)) == Recorded(isFirst, path, width, height)
  {
    isFirst, path, width, height := isFirst0, path0, width0, height0;
    var j := 0;
    while j < |items|
      invariant 0 <= j <= |items|
      invariant ScanItems(items[..j]).Success?
      invariant Then(Recorded(isFirst0, path0, width0, height0), ScanItems(items[..j]))
                == Recorded(isFirst, path, width, height)
    {
      var item := items[j];
      ghost var before := Recorded(isFirst, path, width, height);
      ItemsStep(Recorded(isFirst0, path0, width0, height0), items, j);
      if item.Null? {
        ItemsFailAt(items, j);
        return Some(NullRead("name")), isFirst, path, width, height;
      }
      if IsEntry(item) {
        var actions := Get(item, "actions").value.items;
        match Find(actions, IsNote)
        case NullAt(_) =>
          ItemsFailAt(items, j);
          return Some(NullRead("type")), isFirst, path, width, height;
        case FoundAt(k) =>
          assert ScanItem(item) == Success(Some(NoteItem(actions[k])));
          if isFirst {
            var note := NoteItem(actions[k]);
            path := note.path;
            width := note.width;
            height := note.height;
            isFirst := false;
          }
        case NotFound =>
          assert ScanItem(item) == Success(None);
      } else {
        assert ScanItem(item) == Success(None);
      }
      assert Recorded(isFirst, path, width, height) == Then(before, ScanItem(item));
      j := j + 1;
    }
    assert items[..j] == items;
    thrown := None;
  }

  /** One more level-2 item, after a recorded state `before`. */
  lemma ItemsStep(before: Scan, items: seq<Value>, j: nat)
    requires j < |items|
    ensures ScanItems(items[..j + 1]) == Then(ScanItems(items[..j]), ScanItem(items[j]))
    ensures Then(before, ScanItems(items[..j + 1])) == Then(Then(before, ScanItems(items[..j])), ScanItem(items[j]))
  {
    var prefix := items[..j + 1];
    assert prefix[..|prefix| - 1] == items[..j] && prefix[|prefix| - 1] == items[j];
    ThenAssoc(before, ScanItems(items[..j]), ScanItem(items[j]));
  }

  /** One more top-level item. */
  lemma TopStep(menu: seq<Value>, i: nat)
    requires i < |menu|
    ensures ScanMenu(menu[..i + 1]) == Then(ScanMenu(menu[..i]), ScanTop(menu[i]))
  {
    var prefix := menu[..i + 1];
    assert prefix[..|prefix| - 1] == menu[..i] && prefix[|prefix| - 1] == menu[i];
  }

  lemma ThenAssoc(a: Scan, b: Scan, c: Scan)
    ensures Then(Then(a, b), c) == Then(a, Then(b, c))
  {
  }

  /** A TypeError thrown in the items before position `n` stops the scan of
      the whole menu with that message. */
  lemma {:induction false} FailureSticks(menu: seq<Value>, n: nat)
    requires n <= |menu| && ScanMenu(menu[..n]).Failure?
    ensures ScanMenu(menu) == ScanMenu(menu[..n])
    decreases |menu|
  {
    if n < |menu| {
      assert menu[..|menu| - 1][..n] == menu[..n];
      FailureSticks(menu[..|menu| - 1], n);
    } else {
      assert menu[..n] == menu;
    }
  }

  /** The level-2 counterpart of `FailureSticks`. */
  lemma {:induction false} ItemsFailureSticks(items: seq<Value>, n: nat)
    requires n <= |items| && ScanItems(items[..n]).Failure?
    ensures ScanItems(items) == ScanItems(items[..n])
    decreases |items|
  {
    if n < |items| {
      assert items[..|items| - 1][..n] == items[..n];
      ItemsFailureSticks(items[..|items| - 1], n);
    } else {
      assert items[..n] == items;
    }
  }

  /** A throw at level-2 item `j` is what the submenu's scan gives. */
  lemma ItemsFailAt(items: seq<Value>, j: nat)
    requires j < |items| && ScanItems(items[..j]).Success? && ScanItem(items[j]).Failure?
    ensures ScanItems(items) == ScanItem(items[j])
  {
    var prefix := items[..j + 1];
    assert prefix[..|prefix| - 1] == items[..j] && prefix[|prefix| - 1] == items[j];
    ItemsFailureSticks(items, j + 1);
  }

  /** A throw at top-level item `i` is what the menu's scan gives. */
  lemma TopFailAt(menu: seq<Value>, i: nat)
    requires i < |menu| && ScanMenu(menu[..i]).Success? && ScanTop(menu[i]).Failure?
    ensures ScanMenu(menu) == ScanTop(menu[i])
  {
    var prefix := menu[..i + 1];
    assert prefix[..|prefix| - 1] == menu[..i] && prefix[|prefix| - 1] == menu[i];
    FailureSticks(menu, i + 1);
  }

  // ---------------------------------------------------------------------
  // The recorded item, as an independent definition.

  /** The note a level-2 item offers, when reading it throws nothing. */
  function NoteOf(item: Value): Option<FirstItem> {
    if item.Null? || !IsEntry(item) then None
    else
      var actions := Get(item, "actions").value.items;
      match Find(actions, IsNote)
      case FoundAt(k) => Some(NoteItem(actions[k]))
      case _ => None
  }

  /** The first note among level-2 items. */
  function FirstNote(entries: seq<Value>): Option<FirstItem> {
    if entries == [] then None
    else if NoteOf(entries[0]).Some? then NoteOf(entries[0])
    else FirstNote(entries[1..])
  }

  /** The level-2 items the navigation visits: those of the named submenus,
      in menu order. */
  function Candidates(menu: seq<Value>): seq<Value> {
    if menu == [] then []
    else
      var top := menu[|menu| - 1];
      Candidates(menu[..|menu| - 1]) + (if !top.Null? && IsSubmenu(top) then Get(top, "items").value.items else [])
  }

  lemma {:induction false} FirstNoteAppend(xs: seq<Value>, ys: seq<Value>)
    ensures FirstNote(xs + ys) == if FirstNote(xs).Some? then FirstNote(xs) else FirstNote(ys)
  {
    if xs != [] {
      assert (xs + ys)[0] == xs[0] && (xs + ys)[1..] == xs[1..] + ys;
      FirstNoteAppend(xs[1..], ys);
    } else {
      assert xs + ys == ys;
    }
  }

  /** What a submenu's scan records, when it throws nothing, is its first note. */
  lemma {:induction false} ScanItemsFirst(items: seq<Value>)
    requires ScanItems(items).Success?
    ensures ScanItems(items).value == FirstNote(items)
    decreases |items|
  {
    if items != [] {
      var init, last := items[..|items| - 1], items[|items| - 1];
      ScanItemsFirst(init);
      assert items == init + [last];
      FirstNoteAppend(init, [last]);
      assert FirstNote([last]) == NoteOf(last) by {
        assert [last][1..] == [];
      }
    }
  }

  /** The note the navigation records, when it throws nothing, is the first
      note among the level-2 items of all named submenus. The
      `isFirstSubmenuItem` flag therefore keeps exactly the first one. */
  lemma {:induction false} NavigateRecordsFirst(menu: seq<Value>)
    requires ScanMenu(menu).Success?
    ensures ScanMenu(menu).value == FirstNote(Candidates(menu))
    decreases |menu|
  {
    if menu != [] {
      var init, top := menu[..|menu| - 1], menu[|menu| - 1];
      NavigateRecordsFirst(init);
      if !top.Null? && IsSubmenu(top) {
        var items := Get(top, "items").value.items;
        ScanItemsFirst(items);
        FirstNoteAppend(Candidates(init), items);
      } else {
        assert Candidates(menu) == Candidates(init) + [];
        assert Candidates(init) + [] == Candidates(init);
      }
    }
  }

  /** Scanning a menu in two parts. */
  lemma {:induction false} ScanMenuAppend(xs: seq<Value>, ys: seq<Value>)
    ensures ScanMenu(xs + ys) == Then(ScanMenu(xs), ScanMenu(ys))
    decreases |ys|
  {
    if ys == [] {
      assert xs + ys == xs;
    } else {
      var init, last := ys[..|ys| - 1], ys[|ys| - 1];
      var whole := xs + ys;
      assert whole[..|whole| - 1] == xs + init && whole[|whole| - 1] == last;
      ScanMenuAppend(xs, init);
      ThenAssoc(ScanMenu(xs), ScanMenu(init), ScanTop(last));
    }
  }

  /** A top-level item that is not `null` and not a named submenu with an
      `items` array changes nothing, wherever it stands. */
  lemma SkipsInvalidTop(xs: seq<Value>, top: Value, ys: seq<Value>)
    requires !top.Null? && !IsSubmenu(top)
    ensures ScanMenu(xs + [top] + ys) == ScanMenu(xs + ys)
  {
    ScanMenuAppend(xs + [top], ys);
    ScanMenuAppend(xs, [top]);
    ScanMenuAppend(xs, ys);
    assert [top][..0] == [];
  }
}
