/** The project library window: the projects root as a map from directory
    name to what the directory holds, the selected project, and the
    operations on them (new, scan, rename, delete, card grid). The file
    system, the clock and the random letters are parameters; dialogs are
    represented by the values they return. */
module Library {
  import opened Common
  import opened Text
  import opened ProjectManifest
  import opened ProjectId

  // ---- the New Project dialog

  const SpinMin := 1
  const SpinMax := 999999

  /** The dialog's widget contents: the name field's text and the values of
      the two spin boxes. */
  datatype DialogFields = DialogFields(nameText: string, width: int, height: int)

  /** The spin boxes' range is 1..999999, so their values always lie in it. */
  predicate SpinBoxesInRange(d: DialogFields) {
    SpinMin <= d.width <= SpinMax && SpinMin <= d.height <= SpinMax
  }

  /** The dialog as it opens: an empty name and 1920 x 1080. */
  const InitialDialog := DialogFields("", 1920, 1080)

  /** The name a project gets when the name field is left blank. */
  const Untitled := "Untitled"

  lemma UntitledIsTrimmed()
    ensures Untitled != [] && NoOuterBlanks(Untitled)
  {
    assert Untitled[0] == 'U' && Untitled[|Untitled| - 1] == 'd';
  }

  datatype NewProjectValues = NewProjectValues(name: string, width: int, height: int)

  /** `NewProjectDialog.get_values`: the stripped name, or "Untitled" when
      the name is blank, and the two spin box values. */
  function GetValues(d: DialogFields): (v: NewProjectValues)
    requires SpinBoxesInRange(d)
    ensures v.name != [] && NoOuterBlanks(v.name)
    ensures IsBlank(d.nameText) ==> v.name == Untitled
    ensures !IsBlank(d.nameText) ==> v.name == Strip(d.nameText)
    ensures SpinMin <= v.width <= SpinMax && SpinMin <= v.height <= SpinMax
    ensures v.width == d.width && v.height == d.height
  {
    var stripped := Strip(d.nameText);
    UntitledIsTrimmed();
    NewProjectValues(if stripped == [] then Untitled else stripped, d.width, d.height)
  }

  lemma UntouchedDialogValues()
    ensures SpinBoxesInRange(InitialDialog)
    ensures GetValues(InitialDialog) == NewProjectValues(Untitled, 1920, 1080)
  {
    assert IsBlank(InitialDialog.nameText);
  }

  // ---- the projects root

  /** The projects root: absent, or present with its entries by name. */
  datatype Root = Absent | Present(dirs: map<string, Entry>)

  function Dirs(root: Root): map<string, Entry> {
    if root.Present? then root.dirs else map[]
  }

  /** One listed project: its display name, its id and its directory name. */
  datatype Summary = Summary(name: string, id: string, path: string)

  /** A listed project shows its manifest's `name` and `id`, each defaulting
      to the directory name. */
  function SummaryOf(dir: string, m: Manifest): (s: Summary)
    ensures s.path == dir
    ensures s.name == (if m.name.Some? then m.name.value else dir)
    ensures s.id == (if m.id.Some? then m.id.value else dir)
  {
    Summary(m.name.GetOr(dir), m.id.GetOr(dir), dir)
  }

  /** A directory whose manifest was read and parsed to an object. */
  predicate IsListed(e: Entry) {
    e.Dir? && e.manifest.Parsed?
  }

  /** A directory whose manifest makes the scan raise past its handler. */
  predicate AbortsScan(e: Entry) {
    e.Dir? && e.manifest.RaisesUncaught()
  }

  /** Some directory of the root makes the scan as written abort. */
  predicate ScanAborts(dirs: map<string, Entry>) {
    exists d :: d in dirs && AbortsScan(dirs[d])
  }

  predicate SortedByPath(ps: seq<Summary>) {
    forall i, j :: 0 <= i < j < |ps| ==> StrLess(ps[i].path, ps[j].path)
  }

  predicate SummarisesEntry(dirs: map<string, Entry>, s: Summary) {
    s.path in dirs && IsListed(dirs[s.path]) && s == SummaryOf(s.path, dirs[s.path].manifest.manifest)
  }

  /** `ps` lists `dirs`: strictly sorted by directory name, and holding a
      summary for exactly the directories whose manifest parsed. */
  ghost predicate IsListing(dirs: map<string, Entry>, ps: seq<Summary>) {
    && SortedByPath(ps)
    && (forall i :: 0 <= i < |ps| ==> SummarisesEntry(dirs, ps[i]))
    && (forall d :: d in dirs && IsListed(dirs[d]) ==> exists i :: 0 <= i < |ps| && ps[i].path == d)
  }

  lemma StrLessAsymmetric(a: string, b: string)
    requires StrLess(a, b)
    ensures !StrLess(b, a)
  {
    if StrLess(b, a) {
      StrLessTransitive(a, b, a);
      StrLessIrreflexive(a);
    }
  }

  /** A root has only one listing: sorting by name and the summary rule fix
      it completely. */
  lemma {:induction false} ListingUnique(dirs: map<string, Entry>, a: seq<Summary>, b: seq<Summary>)
    requires IsListing(dirs, a) && IsListing(dirs, b)
    ensures a == b
    decreases |a| + |b|
  {
    if a == [] || b == [] {
      if a != [] {
        ListingNonEmpty(dirs, a, b);
      } else if b != [] {
        ListingNonEmpty(dirs, b, a);
      }
    } else {
      StepDown(dirs, a, b);
      ListingUnique(dirs - {a[0].path}, a[1..], b[1..]);
      SameHeadAndTail(a, b);
    }
  }

  lemma SameHeadAndTail(a: seq<Summary>, b: seq<Summary>)
    requires a != [] && b != [] && a[0] == b[0] && a[1..] == b[1..]
    ensures a == b
  {
    assert a == [a[0]] + a[1..] && b == [b[0]] + b[1..];
  }

  /** Two non-empty listings of one root agree on their first summary, and
      what follows it lists the rest of the root. */
  lemma StepDown(dirs: map<string, Entry>, a: seq<Summary>, b: seq<Summary>)
    requires IsListing(dirs, a) && IsListing(dirs, b) && a != [] && b != []
    ensures a[0] == b[0]
    ensures IsListing(dirs - {a[0].path}, a[1..]) && IsListing(dirs - {a[0].path}, b[1..])
  {
    HeadsAgree(dirs, a, b);
    TailIsListing(dirs, a);
    TailIsListing(dirs, b);
  }

  /** Two non-empty listings of one root start with the same summary. */
  lemma HeadsAgree(dirs: map<string, Entry>, a: seq<Summary>, b: seq<Summary>)
    requires IsListing(dirs, a) && IsListing(dirs, b) && a != [] && b != []
    ensures a[0] == b[0]
  {
    FirstPathsAgree(dirs, a, b);
    FirstPathsAgree(dirs, b, a);
    StrLessTotal(a[0].path, b[0].path);
    assert SummarisesEntry(dirs, a[0]) && SummarisesEntry(dirs, b[0]);
  }

  /** Two listings of one root are empty together. */
  lemma ListingNonEmpty(dirs: map<string, Entry>, a: seq<Summary>, b: seq<Summary>)
    requires IsListing(dirs, a) && IsListing(dirs, b) && a != []
    ensures b != []
  {
    assert SummarisesEntry(dirs, a[0]);
  }

  /** The first entry of a listing is no later than the first of another. */
  lemma FirstPathsAgree(dirs: map<string, Entry>, a: seq<Summary>, b: seq<Summary>)
    requires IsListing(dirs, a) && IsListing(dirs, b) && a != [] && b != []
    ensures !StrLess(b[0].path, a[0].path)
  {
    assert SummarisesEntry(dirs, b[0]);
    var i :| 0 <= i < |a| && a[i].path == b[0].path;
    if i > 0 {
      assert StrLess(a[0].path, a[i].path);
      StrLessAsymmetric(a[0].path, b[0].path);
    } else {
      StrLessIrreflexive(a[0].path);
    }
  }

  lemma TailIsListing(dirs: map<string, Entry>, a: seq<Summary>)
    requires IsListing(dirs, a) && a != []
    ensures IsListing(dirs - {a[0].path}, a[1..])
  {
    var p := a[0].path;
    var rest := dirs - {p};
    forall i | 0 <= i < |a| - 1 ensures SummarisesEntry(rest, a[1..][i]) {
      assert StrLess(a[0].path, a[i + 1].path);
      StrLessIrreflexive(p);
      assert SummarisesEntry(dirs, a[i + 1]);
    }
    forall d | d in rest && IsListed(rest[d])
      ensures exists i :: 0 <= i < |a| - 1 && a[1..][i].path == d
    {
      var j :| 0 <= j < |a| && a[j].path == d;
      assert j != 0;
      assert a[1..][j - 1].path == d;
    }
  }

  // ---- the card grid

  const CardWidth := 160
  const GridSpacing := 12
  /** The horizontal space a card takes in the grid: its width and the spacing. */
  const CardPitch := CardWidth + GridSpacing
  const GridMargin := 24

  /** `max(1, (width - 24) // (CARD_W + 12))`: as many cards as fit across the
      container, but at least one. Floor division by a positive number is
      Dafny's `/`. */
  function GridColumns(width: int): (cols: int)
    ensures cols >= 1
    ensures width - GridMargin >= CardPitch ==> cols * CardPitch <= width - GridMargin < (cols + 1) * CardPitch
    ensures width - GridMargin < 2 * CardPitch ==> cols == 1
  {
    var c := (width - GridMargin) / CardPitch;
    if c < 1 then 1 else c
  }

  datatype Card = Card(project: Summary, row: int, column: int)

  /** Card `i` sits at position `i` of a row-major grid `cols` wide. */
  predicate PlacedRowMajor(cards: seq<Card>, cols: int) {
    forall i :: 0 <= i < |cards| ==> 0 <= cards[i].column < cols && cards[i].row * cols + cards[i].column == i
  }

  /** The placement loop of the grid refresh: card `i` goes to
      `(i // cols, i % cols)`. */
  method PlaceCards(projects: seq<Summary>, cols: int) returns (cards: seq<Card>)
    requires cols >= 1
    ensures |cards| == |projects|
    ensures forall i :: 0 <= i < |cards| ==> cards[i].project == projects[i]
    ensures PlacedRowMajor(cards, cols)
  {
    cards := [];
    var i := 0;
    while i < |projects|
      invariant 0 <= i <= |projects| && |cards| == i
      invariant forall k :: 0 <= k < i ==> cards[k].project == projects[k]
      invariant PlacedRowMajor(cards, cols)
    {
      cards := cards + [Card(projects[i], i / cols, i % cols)];
      i := i + 1;
    }
  }

  /** Row-major placement gives every card its own cell, and a later card is
      in a later row or further right in the same row. */
  lemma RowMajorCellsOrdered(cards: seq<Card>, cols: int, i: int, j: int)
    requires cols >= 1 && PlacedRowMajor(cards, cols) && 0 <= i < j < |cards|
    ensures cards[i].row < cards[j].row || (cards[i].row == cards[j].row && cards[i].column < cards[j].column)
  {
    if cards[i].row > cards[j].row {
      MulMonotone(cards[j].row + 1, cards[i].row, cols);
    }
  }

  lemma MulMonotone(a: int, b: int, c: int)
    requires a <= b && c >= 0
    ensures a * c <= b * c
  {
    assert b * c - a * c == (b - a) * c;
  }

  /** What the grid shows: the "No wallpapers yet" hint, the cards, or
      nothing at all when the scan raised after the grid was emptied. */
  datatype GridView = NoProjectsHint | Cards(cards: seq<Card>) | Emptied

  // ---- identifier draws for the collision-retry loop

  /** The inputs of one `generate_project_id()` call. */
  datatype IdDraw = IdDraw(clock: Clock, picks: seq<nat>)

  predicate ValidDraw(d: IdDraw) {
    ValidClock(d.clock) && ValidPicks(d.picks)
  }

  function Candidate(d: IdDraw): string
    requires ValidDraw(d)
  {
    GenerateProjectId(d.clock, d.picks)
  }

  /** The identifiers successive `generate_project_id()` calls return. */
  function Candidates(draws: seq<IdDraw>): (ids: seq<string>)
    requires forall k :: 0 <= k < |draws| ==> ValidDraw(draws[k])
    ensures |ids| == |draws|
    ensures forall k :: 0 <= k < |ids| ==> WellFormedId(ids[k])
  {
    seq(|draws|, k requires 0 <= k < |draws| => Candidate(draws[k]))
  }

  /** `id` is the first of `ids` that names nothing in `dirs`. */
  ghost predicate FirstFree(dirs: map<string, Entry>, ids: seq<string>, id: string) {
    exists k :: 0 <= k < |ids| && ids[k] == id && id !in dirs
      && forall j :: 0 <= j < k ==> ids[j] in dirs
  }

  /** The collision-retry loop of the new-project handler: take identifiers
      until one names nothing in `dirs`. */
  method FirstFreeId(dirs: map<string, Entry>, ids: seq<string>) returns (id: string)
    requires exists k :: 0 <= k < |ids| && ids[k] !in dirs
    ensures id !in dirs && id in ids
    ensures FirstFree(dirs, ids, id)
  {
    ghost var free :| 0 <= free < |ids| && ids[free] !in dirs;
    var k := 0;
    id := ids[0];
    while id in dirs
      invariant 0 <= k <= free
      invariant id == ids[k]
      invariant forall j :: 0 <= j < k ==> ids[j] in dirs
      decreases free - k
    {
      k := k + 1;
      id := ids[k];
    }
  }

  // ---- rename and delete, as functions of the state

  /** Rename writes only when the selected directory's manifest parsed to an
      object and the entered name is not blank. */
  predicate RenameWrites(root: Root, selected: Option<string>, input: Option<string>) {
    && selected.Some? && selected.value in Dirs(root) && IsListed(Dirs(root)[selected.value])
    && input.Some? && !IsBlank(input.value)
  }

  /** The projects root after a rename with dialog result `input`
      (`None` when cancelled). */
  function RenameResult(root: Root, selected: Option<string>, input: Option<string>): Root {
    if RenameWrites(root, selected, input) then
      var m := Dirs(root)[selected.value].manifest.manifest;
      Present(Dirs(root)[selected.value := Dir(Parsed(m.(name := Some(Strip(input.value)))))])
    else root
  }

  /** Rename changes at most the selected manifest, and in it only `name`,
      which becomes the stripped input; every other key is kept. */
  lemma RenameChangesOnlyName(root: Root, selected: Option<string>, input: Option<string>)
    ensures var r := RenameResult(root, selected, input);
      && Dirs(r).Keys == Dirs(root).Keys
      && (forall d :: d in Dirs(root) && Some(d) != selected ==> Dirs(r)[d] == Dirs(root)[d])
      && (RenameWrites(root, selected, input) ==>
            var m := Dirs(root)[selected.value].manifest.manifest;
            var m' := Dirs(r)[selected.value].manifest.manifest;
            && m'.name == Some(Strip(input.value)) && m'.name.value != []
            && m' == m.(name := m'.name))
  {
  }

  /** Rename leaves the root as it was exactly when it writes nothing or the
      manifest already carries the stripped name. */
  lemma RenameUnchangedIff(root: Root, selected: Option<string>, input: Option<string>)
    ensures RenameResult(root, selected, input) == root <==>
      (!RenameWrites(root, selected, input)
       || Dirs(root)[selected.value].manifest.manifest.name == Some(Strip(input.value)))
  {
    if RenameWrites(root, selected, input) {
      var sel := selected.value;
      var m := Dirs(root)[sel].manifest.manifest;
      var r := RenameResult(root, selected, input);
      if r == root {
        assert Dirs(r)[sel] == Dirs(root)[sel];
      } else {
        assert root.Present?;
        assert Dirs(root)[sel := Dir(Parsed(m))] == Dirs(root);
      }
    }
  }

  /** Renaming twice with the same input is the same as renaming once. */
  lemma RenameIdempotent(root: Root, selected: Option<string>, input: Option<string>)
    ensures RenameResult(RenameResult(root, selected, input), selected, input) == RenameResult(root, selected, input)
  {
    var r := RenameResult(root, selected, input);
    if RenameWrites(root, selected, input) {
      StripIdempotent(input.value);
      assert RenameWrites(r, selected, input);
      RenameUnchangedIff(r, selected, input);
    }
  }

  /** Delete removes the selected directory only when it is a directory, its
      manifest does not raise past the handler while its name is read for the
      question (undecodable, or JSON but not an object), and the user
      confirmed. */
  predicate DeleteRemoves(root: Root, selected: Option<string>, confirmed: bool) {
    && selected.Some? && selected.value in Dirs(root)
    && Dirs(root)[selected.value].Dir? && !Dirs(root)[selected.value].manifest.RaisesUncaught()
    && confirmed
  }

  class ProjectLibrary {
    var root: Root
    var selected: Option<string>

    /** The window opens with the projects root created if it was absent
        and nothing selected. Building the main screen refreshes the grid,
        so a root on which the scan as written aborts has no window. */
    constructor(existing: Root)
      requires !ScanAborts(Dirs(existing))
      ensures root == Present(Dirs(existing)) && selected == None
    {
      root := Present(Dirs(existing));
      selected := None;
    }

    /** `_scan_projects` as written: an entry whose manifest bytes do not
        decode (UnicodeDecodeError from `read_text`) or whose manifest is valid
        JSON but not an object (AttributeError from `data.get`) raises an
        error the `except (json.JSONDecodeError, OSError)` clause does not
        catch, so the whole scan aborts (`None`). */
    method ScanProjectsAsWritten() returns (outcome: Option<seq<Summary>>)
      ensures outcome.None? <==> ScanAborts(Dirs(root))
      ensures outcome.Some? ==> IsListing(Dirs(root), outcome.value)
    {
      var dirs := Dirs(root);
      var remaining := dirs.Keys;
      var projects: seq<Summary> := [];
      while remaining != {}
        invariant remaining <= dirs.Keys
        invariant forall d :: d in dirs && d !in remaining ==> !AbortsScan(dirs[d])
        invariant ScanInvariant(dirs, remaining, projects)
        decreases |remaining|
      {
        var d := LeastRemaining(remaining);
        ghost var before := projects;
        match dirs[d] {
          case File =>
          case Dir(Missing) =>
          case Dir(Unreadable) =>
          case Dir(Undecodable) =>
            return None;
          case Dir(NotAnObject) =>
            return None;
          case Dir(Parsed(m)) =>
            projects := projects + [SummaryOf(d, m)];
        }
        assert projects == NextListing(dirs, before, d);
        ScanStep(dirs, remaining, before, d);
        assert |remaining - {d}| == |remaining| - 1;
        remaining := remaining - {d};
      }
      ScanDone(dirs, projects);
      assert !ScanAborts(dirs);
      outcome := Some(projects);
    }

    /** `_scan_projects`: directory names in sorted order; plain files,
        directories without `project.json`, and manifests that cannot be read,
        do not parse, or (unlike the source) do not decode or are not JSON
        objects are skipped,
        so no single entry stops the listing. A missing root lists nothing. */
    method ScanProjects() returns (projects: seq<Summary>)
      ensures IsListing(Dirs(root), projects)
    {
      var dirs := Dirs(root);
      var remaining := dirs.Keys;
      projects := [];
      while remaining != {}
        invariant remaining <= dirs.Keys
        invariant ScanInvariant(dirs, remaining, projects)
        decreases |remaining|
      {
        var d := LeastRemaining(remaining);
        ghost var before := projects;
        match dirs[d] {
          case File =>
          case Dir(Missing) =>
          case Dir(Unreadable) =>
          case Dir(Undecodable) =>
          case Dir(NotAnObject) =>
          case Dir(Parsed(m)) =>
            projects := projects + [SummaryOf(d, m)];
        }
        assert projects == NextListing(dirs, before, d);
        ScanStep(dirs, remaining, before, d);
        assert |remaining - {d}| == |remaining| - 1;
        remaining := remaining - {d};
      }
      ScanDone(dirs, projects);
    }

    /** `_on_new_project`: when the dialog is accepted, draw identifiers until
        one names nothing in the root, create that directory with the initial
        manifest, refresh the grid, and select the new project. An existing
        entry is never reused. When the refresh's scan raises, the project
        exists but the selection is not changed. */
    method NewProject(dialog: Option<DialogFields>, draws: seq<IdDraw>) returns (created: Option<string>)
      requires dialog.Some? ==> SpinBoxesInRange(dialog.value)
      requires forall k :: 0 <= k < |draws| ==> ValidDraw(draws[k])
      requires dialog.Some? ==> exists k :: 0 <= k < |draws| && Candidates(draws)[k] !in Dirs(root)
      modifies this
      ensures dialog.None? ==> created.None? && root == old(root) && selected == old(selected)
      ensures dialog.Some? ==> created.Some? && FirstFree(old(Dirs(root)), Candidates(draws), created.value)
      ensures dialog.Some? ==> WellFormedId(created.value)
      ensures dialog.Some? ==>
        var v := GetValues(dialog.value);
        root == Present(old(Dirs(root))[created.value := Dir(Parsed(InitialManifest(created.value, v.name, v.width, v.height)))])
      ensures dialog.Some? && !ScanAborts(Dirs(root)) ==> selected == created
      ensures dialog.Some? && ScanAborts(Dirs(root)) ==> selected == old(selected)
    {
      if dialog.None? {
        return None;
      }
      var values := GetValues(dialog.value);
      var dirs := Dirs(root);
      var projectId := FirstFreeId(dirs, Candidates(draws));
      var manifest := InitialManifest(projectId, values.name, values.width, values.height);
      root := Present(dirs[projectId := Dir(Parsed(manifest))]);
      created := Some(projectId);
      var refreshed := ScanProjectsAsWritten();
      if refreshed.Some? {
        selected := Some(projectId);
      }
    }

    /** `_on_rename_project` with the rename dialog's result `input`. Nothing
        is written when nothing is selected, the manifest cannot be read or
        parsed, or the input is cancelled or blank. */
    method RenameProject(input: Option<string>)
      modifies this
      ensures root == RenameResult(old(root), old(selected), input)
      ensures selected == old(selected)
    {
      if selected.None? {
        return;
      }
      var sel := selected.value;
      var dirs := Dirs(root);
      if sel !in dirs {
        return;             // reading project.json raises FileNotFoundError
      }
      match dirs[sel]
      case File =>          // NotADirectoryError
      case Dir(Missing) =>
      case Dir(Unreadable) =>
      case Dir(Undecodable) =>   // read_text raises UnicodeDecodeError
      case Dir(NotAnObject) =>   // data.get raises AttributeError before the dialog
      case Dir(Parsed(data)) =>
        if input.None? || Strip(input.value) == [] {
          return;
        }
        var renamed := data.(name := Some(Strip(input.value)));
        root := Present(dirs[sel := Dir(Parsed(renamed))]);
    }

    /** `_on_delete_project` with the confirmation's answer: the selected
        directory is removed and the selection cleared. When `rmtree` or the
        name lookup for the question raises, nothing changes. */
    method DeleteProject(confirmed: bool)
      modifies this
      ensures DeleteRemoves(old(root), old(selected), confirmed) ==>
        root == Present(old(Dirs(root)) - {old(selected).value}) && selected == None
      ensures !DeleteRemoves(old(root), old(selected), confirmed) ==>
        root == old(root) && selected == old(selected)
    {
      if selected.None? {
        return;
      }
      var sel := selected.value;
      var dirs := Dirs(root);
      if sel in dirs && AbortsScan(dirs[sel]) {
        return;             // read_text or data.get raises past the handler
      }
      if !confirmed {
        return;
      }
      if sel !in dirs || dirs[sel].File? {
        return;             // rmtree raises
      }
      root := Present(dirs - {sel});
      selected := None;
    }

    /** `_refresh_grid` for a container `width` pixels wide: the grid is
        emptied and the projects scanned as written. When the scan raises the
        grid stays empty; otherwise it shows the hint when no project is
        listed, and every listed project in order, placed row-major in
        `GridColumns(width)` columns, when some are. */
    method RefreshGrid(width: int) returns (view: GridView)
      ensures view.Emptied? <==> ScanAborts(Dirs(root))
      ensures view.NoProjectsHint? <==> !ScanAborts(Dirs(root)) && forall d :: d in Dirs(root) ==> !IsListed(Dirs(root)[d])
      ensures view.Cards? ==> PlacedRowMajor(view.cards, GridColumns(width))
      ensures view.Cards? ==> IsListing(Dirs(root), seq(|view.cards|, i requires 0 <= i < |view.cards| => view.cards[i].project))
    {
      var scanned := ScanProjectsAsWritten();
      if scanned.None? {
        return Emptied;
      }
      var projects := scanned.value;
      if projects == [] {
        return NoProjectsHint;
      }
      assert SummarisesEntry(Dirs(root), projects[0]);
      var cards := PlaceCards(projects, GridColumns(width));
      assert seq(|cards|, i requires 0 <= i < |cards| => cards[i].project) == projects;
      view := Cards(cards);
    }
  }

  // ---- what the listing shows after each change

  /** A project just created is listed under its identifier, with the name
      from the dialog. */
  lemma CreatedProjectListed(dirs: map<string, Entry>, id: string, v: NewProjectValues, ps: seq<Summary>)
    requires IsListing(dirs[id := Dir(Parsed(InitialManifest(id, v.name, v.width, v.height)))], ps)
    ensures exists i :: 0 <= i < |ps| && ps[i] == Summary(v.name, id, id)
  {
    var dirs' := dirs[id := Dir(Parsed(InitialManifest(id, v.name, v.width, v.height)))];
    assert IsListed(dirs'[id]);
    var i :| 0 <= i < |ps| && ps[i].path == id;
    assert SummarisesEntry(dirs', ps[i]);
  }

  /** After a rename that writes, the listing shows the stripped new name for
      the selected directory. */
  lemma RenamedProjectListed(root: Root, selected: Option<string>, input: Option<string>, ps: seq<Summary>)
    requires RenameWrites(root, selected, input)
    requires IsListing(Dirs(RenameResult(root, selected, input)), ps)
    ensures exists i :: 0 <= i < |ps| && ps[i].path == selected.value && ps[i].name == Strip(input.value)
  {
    var dirs' := Dirs(RenameResult(root, selected, input));
    assert IsListed(dirs'[selected.value]);
    var i :| 0 <= i < |ps| && ps[i].path == selected.value;
    assert SummarisesEntry(dirs', ps[i]);
  }

  /** After a delete, the removed directory is no longer listed. */
  lemma DeletedProjectUnlisted(root: Root, selected: Option<string>, ps: seq<Summary>)
    requires DeleteRemoves(root, selected, true)
    requires IsListing(Dirs(root) - {selected.value}, ps)
    ensures forall i :: 0 <= i < |ps| ==> ps[i].path != selected.value
  {
    forall i | 0 <= i < |ps| ensures ps[i].path != selected.value {
      assert SummarisesEntry(Dirs(root) - {selected.value}, ps[i]);
    }
  }

  /** The roots that show the abort in the scan as written: one valid
      project and one directory whose `project.json` does not decode or holds
      JSON that is not an object (a list, say). The window opens on the valid
      project alone; the unusable manifest appears afterwards. */
  method ScanAbortWitness(bad: ManifestFile) returns (asWritten: Option<seq<Summary>>, corrected: seq<Summary>)
    requires bad.RaisesUncaught()
    ensures asWritten == None
    ensures corrected == [Summary("Beach", "140126093000-ABC", "a")]
  {
    var good := InitialManifest("140126093000-ABC", "Beach", 1920, 1080);
    var lib := new ProjectLibrary(Present(map["a" := Dir(Parsed(good))]));
    lib.root := Present(map["a" := Dir(Parsed(good)), "b" := Dir(bad)]);
    asWritten := lib.ScanProjectsAsWritten();
    assert AbortsScan(Dirs(lib.root)["b"]);
    assert asWritten == None;
    corrected := lib.ScanProjects();
    var expected := [Summary("Beach", "140126093000-ABC", "a")];
    assert IsListing(Dirs(lib.root), expected) by {
      forall d | d in Dirs(lib.root) && IsListed(Dirs(lib.root)[d])
        ensures exists i :: 0 <= i < |expected| && expected[i].path == d
      {
        assert d == "a";
        assert expected[0].path == d;
      }
    }
    ListingUnique(Dirs(lib.root), corrected, expected);
  }

  // ---- scan loop helpers

  /** What the scan loop keeps: the summaries so far list exactly the names
      already visited, sorted, each before every name still to visit. */
  ghost predicate ScanInvariant(dirs: map<string, Entry>, remaining: set<string>, ps: seq<Summary>) {
    && SortedByPath(ps)
    && (forall i :: 0 <= i < |ps| ==> SummarisesEntry(dirs, ps[i]) && ps[i].path !in remaining)
    && (forall i, e :: 0 <= i < |ps| && e in remaining ==> StrLess(ps[i].path, e))
    && (forall d :: d in dirs && d !in remaining && IsListed(dirs[d]) ==> exists i :: 0 <= i < |ps| && ps[i].path == d)
  }

  /** The next name `sorted` yields. */
  method LeastRemaining(remaining: set<string>) returns (d: string)
    requires remaining != {}
    ensures IsLeastName(d, remaining)
  {
    ghost var m := LeastNameExists(remaining);
    d :| IsLeastName(d, remaining);
  }

  /** The summaries after visiting `d`. */
  function NextListing(dirs: map<string, Entry>, ps: seq<Summary>, d: string): seq<Summary>
    requires d in dirs
  {
    if IsListed(dirs[d]) then ps + [SummaryOf(d, dirs[d].manifest.manifest)] else ps
  }

  lemma ScanStep(dirs: map<string, Entry>, remaining: set<string>, ps: seq<Summary>, d: string)
    requires remaining <= dirs.Keys && IsLeastName(d, remaining)
    requires ScanInvariant(dirs, remaining, ps)
    ensures ScanInvariant(dirs, remaining - {d}, NextListing(dirs, ps, d))
  {
    StepKeepsOrder(dirs, remaining, ps, d);
    StepKeepsComplete(dirs, remaining, ps, d);
  }

  /** After visiting `d`, every summary still precedes every name left. */
  lemma StepKeepsOrder(dirs: map<string, Entry>, remaining: set<string>, ps: seq<Summary>, d: string)
    requires remaining <= dirs.Keys && IsLeastName(d, remaining)
    requires ScanInvariant(dirs, remaining, ps)
    ensures forall i, e :: 0 <= i < |NextListing(dirs, ps, d)| && e in remaining - {d} ==>
      StrLess(NextListing(dirs, ps, d)[i].path, e)
  {
    var next := NextListing(dirs, ps, d);
    forall i, e | 0 <= i < |next| && e in remaining - {d} ensures StrLess(next[i].path, e) {
      if i == |ps| {
        assert next[i].path == d;
      }
    }
  }

  /** After visiting `d`, every listed name already visited has a summary. */
  lemma StepKeepsComplete(dirs: map<string, Entry>, remaining: set<string>, ps: seq<Summary>, d: string)
    requires remaining <= dirs.Keys && IsLeastName(d, remaining)
    requires ScanInvariant(dirs, remaining, ps)
    ensures forall e :: e in dirs && e !in remaining - {d} && IsListed(dirs[e]) ==>
      exists i :: 0 <= i < |NextListing(dirs, ps, d)| && NextListing(dirs, ps, d)[i].path == e
  {
    var next := NextListing(dirs, ps, d);
    forall e | e in dirs && e !in remaining - {d} && IsListed(dirs[e])
      ensures exists i :: 0 <= i < |next| && next[i].path == e
    {
      if e == d {
        assert next[|ps|].path == d;
      } else {
        var i :| 0 <= i < |ps| && ps[i].path == e;
        assert next[i].path == e;
      }
    }
  }

  lemma ScanDone(dirs: map<string, Entry>, ps: seq<Summary>)
    requires ScanInvariant(dirs, {}, ps)
    ensures IsListing(dirs, ps)
  {
  }
}
