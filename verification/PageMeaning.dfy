/** What the preview's reading of Markdown lines means: a document written out line by line is read back block by
    block, and the elements of the page are those of its text. */
module PageMeaning {
  import opened BlockTags

  // ---------------------------------------------------------------------------------
  // Blanks, markers and cells

  predicate Blank(s: string) {
    forall k | 0 <= k < |s| :: IsSpace(s[k])
  }

  predicate Trimmed(s: string) {
    s != "" ==> !IsSpace(s[0]) && !IsSpace(s[|s| - 1])
  }

  // Trimming takes the blanks at both ends and nothing else.
  lemma TrimExactly(s: string)
    ensures Trimmed(Trim(s))
    ensures exists a, b :: Blank(a) && Blank(b) && s == a + Trim(s) + b
  {
    var a := TrimLeftExactly(s);
    var b := TrimRightExactly(TrimLeft(s));
    assert s == a + Trim(s) + b;
    assert Trim(s) != "" ==> Trim(s)[0] == TrimLeft(s)[0];
  }

  lemma {:induction false} TrimLeftExactly(s: string) returns (a: string)
    ensures Blank(a) && s == a + TrimLeft(s) && (TrimLeft(s) != "" ==> !IsSpace(TrimLeft(s)[0]))
  {
    a := "";
    if s != "" && IsSpace(s[0]) {
      var b := TrimLeftExactly(s[1..]);
      a := [s[0]] + b;
    }
  }

  lemma {:induction false} TrimRightExactly(s: string) returns (b: string)
    ensures Blank(b) && s == TrimRight(s) + b
    ensures TrimRight(s) != "" ==> !IsSpace(TrimRight(s)[|TrimRight(s)| - 1])
  {
    b := "";
    if s != "" && IsSpace(s[|s| - 1]) {
      var a := TrimRightExactly(s[..|s| - 1]);
      b := a + [s[|s| - 1]];
    }
  }

  lemma TrimOfTrimmed(s: string)
    requires Trimmed(s)
    ensures Trim(s) == s
  {
  }

  lemma TrimIndented(s: string)
    requires Trimmed(s)
    ensures Trim("  " + s) == s
  {
    var t := "  " + s;
    assert t[1..] == " " + s && t[1..][1..] == s;
    assert TrimLeft(t) == TrimLeft(t[1..]) == TrimLeft(s) == s;
  }

  lemma TrimKeepsHead(s: string)
    requires s != "" && !IsSpace(s[0])
    ensures Trim(s) != "" && Trim(s)[0] == s[0]
  {
    var b := TrimRightExactly(s);
    assert TrimLeft(s) == s;
    assert b != "" ==> IsSpace(b[0]);
    assert TrimRight(s) == "" ==> s == b;
  }

  predicate Digits(s: string) {
    s != "" && forall k | 0 <= k < |s| :: '0' <= s[k] <= '9'
  }

  // An ordered item starts with digits, a dot and a blank.
  lemma OrderedMarkerExactly(digits: string, text: string)
    requires Digits(digits)
    ensures OrderedMarker(digits + ". " + text) == |digits| + 2
  {
    var line := digits + ". " + text;
    DigitsEndAt(line, 0, |digits|);
    assert line[|digits|..] == ". " + text;
  }

  lemma {:induction false} DigitsEndAt(s: string, i: nat, d: nat)
    requires i <= d < |s| && s[d] == '.' && forall k | i <= k < d :: '0' <= s[k] <= '9'
    ensures DigitsEnd(s, i) == d
    decreases d - i
  {
    if i < d {
      DigitsEndAt(s, i + 1, d);
    }
  }

  lemma {:induction false} DigitsEndDigits(s: string, i: nat)
    requires i <= |s|
    ensures forall k | i <= k < DigitsEnd(s, i) :: '0' <= s[k] <= '9'
    decreases |s| - i
  {
    if i < |s| && '0' <= s[i] <= '9' {
      DigitsEndDigits(s, i + 1);
    }
  }

  lemma MarkerIsOrdered(line: string)
    requires OrderedMarker(line) > 0
    ensures exists digits, text :: Digits(digits) && line == digits + ". " + text && OrderedMarker(line) == |digits| + 2
  {
    DigitsEndDigits(line, 0);
    var d := DigitsEnd(line, 0);
    assert Digits(line[..d]) && line == line[..d] + ". " + line[d + 2..];
  }

  // How many backslashes stand directly before k.
  function Backslashes(s: string, k: nat): nat
    requires k <= |s|
  {
    if k > 0 && s[k - 1] == '\\' then Backslashes(s, k - 1) + 1 else 0
  }

  predicate Escaped(s: string, k: nat)
    requires k <= |s|
  {
    Backslashes(s, k) % 2 == 1
  }

  // How many unescaped backquotes stand before k.
  function Quotes(s: string, k: nat): nat
    requires k <= |s|
  {
    if k == 0 then 0 else Quotes(s, k - 1) + if s[k - 1] == '`' && !Escaped(s, k - 1) then 1 else 0
  }

  // A bar parts two cells unless it is escaped or between backquotes.
  predicate Parts(s: string, k: nat)
    requires k < |s|
  {
    s[k] == '|' && !Escaped(s, k) && Quotes(s, k) % 2 == 0
  }

  // The texts between the parting bars.
  function Between(s: string, start: nat, k: nat): seq<string>
    requires start <= k <= |s|
    decreases |s| - k
  {
    if k == |s| then [Trim(s[start..])]
    else if Parts(s, k) then [Trim(s[start..k])] + Between(s, k + 1, k + 1)
    else Between(s, start, k + 1)
  }

  lemma Passed(s: string, k: nat)
    requires k < |s|
    ensures Escaped(s, k + 1) <==> s[k] == '\\' && !Escaped(s, k)
    ensures Quotes(s, k + 1) % 2 == 1 <==> (Quotes(s, k) % 2 == 1) != (s[k] == '`' && !Escaped(s, k))
  {
  }

  lemma {:induction false} CellsExactly(s: string, start: nat, k: nat)
    requires start <= k <= |s|
    ensures SplitCells(s[k..], s[start..k], Quotes(s, k) % 2 == 1, Escaped(s, k)) == Between(s, start, k)
    decreases |s| - k
  {
    hide Trim, Quotes, Backslashes, Escaped;
    if k < |s| {
      Passed(s, k);
      assert s[k..][1..] == s[k + 1..];
      if Parts(s, k) {
        assert s[k + 1..k + 1] == "";
        CellsExactly(s, k + 1, k + 1);
      } else {
        assert s[start..k] + [s[k]] == s[start..k + 1];
        CellsExactly(s, start, k + 1);
      }
    } else {
      assert s[start..k] == s[start..] && s[k..] == "";
    }
  }

  // ---------------------------------------------------------------------------------
  // The elements of a page

  function Opened(tags: seq<Tag>): seq<Name> {
    if tags == [] then []
    else
      Opened(tags[..|tags| - 1]) +
      match tags[|tags| - 1]
      case Open(name) => if name in {DIV, TABLE, THEAD, TBODY} then [] else [name]
      case Close(_) => []
  }

  // Whether the last row that was started is a header.
  predicate InHead(atoms: seq<Atom>) {
    atoms != [] && match atoms[|atoms| - 1] case RowStart(head) => head case _ => InHead(atoms[..|atoms| - 1])
  }

  // The elements that what is said calls for.
  function Elements(atoms: seq<Atom>): seq<Name> {
    if atoms == [] then []
    else
      var before, last := atoms[..|atoms| - 1], atoms[|atoms| - 1];
      Elements(before) +
      match last
      case ParaStart => [P]
      case ListStart(ordered) => [if ordered then OL else UL]
      case ItemStart => [LI]
      case HeadingText(_, _) => [H]
      case CodeStart(_) => [PRE]
      case RowStart(_) => [TR]
      case Cell(_) => [if InHead(before) then TH else TD]
      case _ => []
  }

  lemma {:induction false} OpenedConcat(a: seq<Tag>, b: seq<Tag>)
    ensures Opened(a + b) == Opened(a) + Opened(b)
  {
    if b == [] {
      assert a + b == a;
    } else {
      OpenedConcat(a, b[..|b| - 1]);
      assert (a + b)[..|a + b| - 1] == a + b[..|b| - 1];
    }
  }

  lemma OpenedPair(name: Name)
    requires name in {P, UL, OL, LI, H, PRE, TR, TH, TD}
    ensures Opened([Open(name)]) == [name] && Opened([Close(name)]) == [] && Opened([Open(name), Close(name)]) == [name]
  {
    OpenedConcat([Open(name)], [Close(name)]);
    assert [Open(name)] + [Close(name)] == [Open(name), Close(name)];
  }

  function Times(n: nat, name: Name): seq<Name> {
    seq(n, i => name)
  }

  lemma {:induction false} OpenedCells(n: nat, name: Name)
    requires name in {TH, TD}
    ensures Opened(Cells(n, name)) == Times(n, name)
  {
    if n > 0 {
      OpenedCells(n - 1, name);
      OpenedConcat(Cells(n - 1, name), [Open(name), Close(name)]);
      OpenedPair(name);
    }
  }

  // What is left of a chunk's opened elements when its wrappers are left out.
  lemma ChunkElements(atoms: seq<Atom>, c: Chunk)
    ensures Elements(atoms + ChunkAtoms(c)) == Elements(atoms) + Opened(TagsOf(c))
  {
    hide Opened, Elements;
    match c
    case Para(lines) =>
      OpenedPair(P);
      OneElement(atoms, ParaStart);
      TextElements(atoms, ParaStart, lines, t => ParaLine(t));
    case Item(lines) =>
      OpenedPair(LI);
      OneElement(atoms, ItemStart);
      TextElements(atoms, ItemStart, lines, t => ItemLine(t));
    case CodeBlock(lines, info) =>
      OpenedPair(PRE);
      OneElement(atoms, CodeStart(info));
      TextElements(atoms, CodeStart(info), lines, t => CodeLine(t));
    case Heading(level, title) =>
      OpenedPair(H);
      OneElement(atoms, HeadingText(level, title));
    case OpenList(ordered) =>
      OpenedPair(if ordered then OL else UL);
      OneElement(atoms, ListStart(ordered));
    case TableHead(cells) =>
      RowElements(atoms, true, cells);
      OpenedHead(|cells|);
    case BodyRow(cells) =>
      RowElements(atoms, false, cells);
      OpenedRow(|cells|, TD);
    case _ =>
      OpenedWrapper(c);
      assert atoms + ChunkAtoms(c) == atoms;
  }

  lemma OneElement(atoms: seq<Atom>, last: Atom)
    ensures Elements(atoms + [last]) == Elements(atoms) +
      match last
      case ParaStart => [P]
      case ListStart(ordered) => [if ordered then OL else UL]
      case ItemStart => [LI]
      case HeadingText(_, _) => [H]
      case CodeStart(_) => [PRE]
      case RowStart(_) => [TR]
      case Cell(_) => [if InHead(atoms) then TH else TD]
      case _ => []
    ensures InHead(atoms + [last]) == match last case RowStart(head) => head case _ => InHead(atoms)
  {
    assert (atoms + [last])[..|atoms|] == atoms;
  }

  lemma {:induction false} TextElements(atoms: seq<Atom>, start: Atom, lines: seq<string>, f: string -> Atom)
    requires start.ParaStart? || start.ItemStart? || start.CodeStart?
    requires forall t :: f(t).ParaLine? || f(t).ItemLine? || f(t).CodeLine?
    ensures Elements(atoms + ([start] + Each(lines, f))) == Elements(atoms + [start])
  {
    hide Elements;
    if lines == [] {
      assert [start] + Each(lines, f) == [start];
    } else {
      var before := lines[..|lines| - 1];
      TextElements(atoms, start, before, f);
      OneElement(atoms + ([start] + Each(before, f)), f(lines[|lines| - 1]));
      assert atoms + ([start] + Each(lines, f)) == atoms + ([start] + Each(before, f)) + [f(lines[|lines| - 1])];
    }
  }

  lemma {:induction false} RowElements(atoms: seq<Atom>, head: bool, cells: seq<string>)
    ensures Elements(atoms + RowAtoms(cells, head)) == Elements(atoms) + ([TR] + Times(|cells|, if head then TH else TD))
    ensures InHead(atoms + RowAtoms(cells, head)) == head
  {
    hide Elements, InHead;
    if cells == [] {
      assert RowAtoms(cells, head) == [RowStart(head)];
      OneElement(atoms, RowStart(head));
    } else {
      var before, last := cells[..|cells| - 1], Cell(cells[|cells| - 1]);
      RowElements(atoms, head, before);
      OneElement(atoms + RowAtoms(before, head), last);
      assert atoms + RowAtoms(cells, head) == atoms + RowAtoms(before, head) + [last];
    }
  }

  lemma OpenedRow(n: nat, name: Name)
    requires name in {TH, TD}
    ensures Opened([Open(TR)] + Cells(n, name) + [Close(TR)]) == [TR] + Times(n, name)
  {
    hide Opened, Cells;
    OpenedCells(n, name);
    OpenedPair(TR);
    OpenedConcat([Open(TR)], Cells(n, name));
    OpenedConcat([Open(TR)] + Cells(n, name), [Close(TR)]);
  }

  lemma OpenedHead(n: nat)
    ensures Opened([Open(THEAD), Open(TR)] + Cells(n, TH) + [Close(TR), Close(THEAD)]) == [TR] + Times(n, TH)
  {
    hide Opened, Cells;
    OpenedRow(n, TH);
    OpenedGroup();
    var row := [Open(TR)] + Cells(n, TH) + [Close(TR)];
    OpenedConcat([Open(THEAD)], row);
    OpenedConcat([Open(THEAD)] + row, [Close(THEAD)]);
    assert [Open(THEAD), Open(TR)] + Cells(n, TH) + [Close(TR), Close(THEAD)] == [Open(THEAD)] + row + [Close(THEAD)];
  }

  lemma OpenedGroup()
    ensures Opened([Open(THEAD)]) == [] && Opened([Close(THEAD)]) == []
  {
  }

  lemma OpenedWrapper(c: Chunk)
    requires c.OpenTable? || c.OpenBody? || c.CloseTable? || c.CloseList?
    ensures Opened(TagsOf(c)) == []
  {
    match c
    case OpenTable => assert [Open(DIV), Open(TABLE)][..1] == [Open(DIV)];
    case CloseTable => assert [Close(TBODY), Close(TABLE), Close(DIV)][..2] == [Close(TBODY), Close(TABLE)] && [Close(TBODY), Close(TABLE)][..1] == [Close(TBODY)];
    case _ =>
  }

  // A page holds exactly the elements that its text calls for, in the order of the text.
  lemma {:induction false} PageElements(out: seq<Chunk>)
    ensures Opened(Tags(out)) == Elements(Atoms(out))
  {
    if out != [] {
      var before, last := out[..|out| - 1], out[|out| - 1];
      PageElements(before);
      ChunkElements(Atoms(before), last);
      OpenedConcat(Tags(before), TagsOf(last));
    }
  }

  // ---------------------------------------------------------------------------------
  // Documents, written out and read back

  datatype Entry = Entry(digits: string, text: string, more: seq<string>)

  datatype Block =
    | Text(lines: seq<string>)
    | Listing(ordered: bool, entries: seq<Entry>)
    | Title(level: nat, text: string)
    | Code(info: string, lines: seq<string>)
    | Grid(header: seq<string>, rows: seq<seq<string>>)

  function Indented(lines: seq<string>): seq<string> {
    seq(|lines|, i requires 0 <= i < |lines| => "  " + lines[i])
  }

  function EntryLines(ordered: bool, e: Entry): seq<string> {
    [(if ordered then e.digits + ". " else "- ") + e.text] + Indented(e.more)
  }

  function EntriesLines(ordered: bool, entries: seq<Entry>): seq<string> {
    if entries == [] then [] else EntryLines(ordered, entries[0]) + EntriesLines(ordered, entries[1..])
  }

  function Joined(cells: seq<string>): string {
    if cells == [] then "" else if |cells| == 1 then cells[0] else cells[0] + "|" + Joined(cells[1..])
  }

  function RowLine(cells: seq<string>): string {
    "|" + Joined(cells) + "|"
  }

  function RowLines(rows: seq<seq<string>>): seq<string> {
    seq(|rows|, i requires 0 <= i < |rows| => RowLine(rows[i]))
  }

  function Lines(b: Block): seq<string>
    requires Fits(b)
  {
    match b
    case Text(lines) => lines + [""]
    case Listing(ordered, entries) => EntriesLines(ordered, entries) + [""]
    case Title(level, text) => [(if level == 2 then "# " else if level == 3 then "## " else "### ") + text]
    case Code(info, lines) => ["```" + info] + lines + ["```"]
    case Grid(header, rows) => [RowLine(header), "|---|"] + RowLines(rows) + [""]
  }

  function Document(blocks: seq<Block>): seq<string>
    requires forall b <- blocks :: Fits(b)
  {
    if blocks == [] then [] else Lines(blocks[0]) + Document(blocks[1..])
  }

  // A line that is neither a comment nor a table row.
  predicate Loose(t: string) {
    t != "" && Trimmed(t) && !("<!--" <= t && HasSuffix(t, "-->")) && !("|" <= t)
  }

  predicate PlainLine(t: string) {
    && Loose(t) && !("```" <= t) && !("# " <= t) && !("## " <= t) && !("### " <= t) && !("- " <= t)
    && OrderedMarker(t) == 0
  }

  predicate PlainCell(cell: string) {
    Trimmed(cell) && forall k | 0 <= k < |cell| :: cell[k] !in "|`\\"
  }

  predicate PlainRow(cells: seq<string>) {
    cells != [] && forall k | 0 <= k < |cells| :: PlainCell(cells[k])
  }

  predicate PlainEntry(ordered: bool, e: Entry) {
    && Trimmed(e.text) && (ordered ==> Digits(e.digits))
    && forall k | 0 <= k < |e.more| :: Loose(e.more[k])
  }

  predicate Fits(b: Block) {
    match b
    case Text(lines) => lines != [] && forall k | 0 <= k < |lines| :: PlainLine(lines[k])
    case Listing(ordered, entries) => entries != [] && forall k | 0 <= k < |entries| :: PlainEntry(ordered, entries[k])
    case Title(level, text) => 2 <= level <= 4 && Trimmed(text)
    case Code(info, lines) => Trimmed(info) && forall k | 0 <= k < |lines| :: !("```" <= lines[k])
    case Grid(header, rows) => PlainRow(header) && forall k | 0 <= k < |rows| :: PlainRow(rows[k])
  }

  // What a block says.
  function EntriesAtoms(entries: seq<Entry>): seq<Atom> {
    if entries == [] then [] else GrownAtoms([entries[0].text] + entries[0].more) + EntriesAtoms(entries[1..])
  }

  function BlockAtoms(b: Block): seq<Atom> {
    match b
    case Text(lines) => ParaAtoms(lines)
    case Listing(ordered, entries) => [ListStart(ordered)] + EntriesAtoms(entries)
    case Title(level, text) => [HeadingText(level, text)]
    case Code(info, lines) => CodeAtoms(lines, info)
    case Grid(header, rows) => RowAtoms(header, true) + RowsAtoms(rows, |header|)
  }

  function DocumentAtoms(blocks: seq<Block>): seq<Atom> {
    if blocks == [] then [] else BlockAtoms(blocks[0]) + DocumentAtoms(blocks[1..])
  }

  // Reading goes on line by line, whatever came before.
  lemma {:induction false} RowsShift(before: seq<string>, lines: seq<string>, i: nat)
    requires i <= |lines|
    ensures Rows(before + lines, |before| + i) == Rows(lines, i)
    decreases |lines| - i
  {
    hide TableRow, Trim;
    if i < |lines| {
      assert (before + lines)[|before| + i] == lines[i];
      RowsShift(before, lines, i + 1);
    }
  }

  predicate Comment(line: string) {
    "<!--" <= Trim(line) && HasSuffix(Trim(line), "-->")
  }

  predicate HeadsTable(lines: seq<string>, i: nat)
    requires i < |lines|
  {
    "|" <= Trim(lines[i]) && i + 1 < |lines| && IsTableSeparator(lines[i + 1])
  }

  lemma FenceStep(lines: seq<string>, i: nat, mode: Mode)
    requires i < |lines| && "```" <= lines[i]
    ensures Content(lines, i, mode) ==
            if mode.InCode? then Content(lines, i + 1, Top) else [CodeStart(Trim(lines[i][3..]))] + Content(lines, i + 1, InCode)
  {
    hide TableRow, Trim, HasSuffix, IsTableSeparator, LineAtoms, RowAtoms, RowsAtoms, Rows;
  }

  lemma PassedStep(lines: seq<string>, i: nat, mode: Mode)
    requires i < |lines| && !("```" <= lines[i]) && (mode.InCode? || Comment(lines[i]))
    ensures Content(lines, i, mode) == (if mode.InCode? then [CodeLine(lines[i])] else []) + Content(lines, i + 1, mode)
  {
    hide TableRow, Trim, HasSuffix, IsTableSeparator, LineAtoms, RowAtoms, RowsAtoms, Rows;
  }

  lemma TableStep(lines: seq<string>, i: nat, mode: Mode)
    requires i < |lines| && !("```" <= lines[i]) && !mode.InCode? && !Comment(lines[i]) && HeadsTable(lines, i)
    ensures var (header, rows) := (TableRow(lines[i]), Rows(lines, i + 2));
            Content(lines, i, mode) == RowAtoms(header, true) + RowsAtoms(rows, |header|) + Content(lines, i + 2 + |rows|, Top)
  {
    hide TableRow, Trim, HasSuffix, IsTableSeparator, LineAtoms, RowAtoms, RowsAtoms, Rows;
  }

  lemma LineStep(lines: seq<string>, i: nat, mode: Mode)
    requires i < |lines| && !("```" <= lines[i]) && !mode.InCode? && !Comment(lines[i]) && !HeadsTable(lines, i)
    ensures var (atoms, next) := LineAtoms(lines[i], mode); Content(lines, i, mode) == atoms + Content(lines, i + 1, next)
  {
    hide TableRow, Trim, HasSuffix, IsTableSeparator, LineAtoms, RowAtoms, RowsAtoms, Rows;
  }

  lemma {:induction false} ContentShift(before: seq<string>, lines: seq<string>, i: nat, mode: Mode)
    requires i <= |lines|
    ensures Content(before + lines, |before| + i, mode) == Content(lines, i, mode)
    decreases |lines| - i
  {
    hide Content, Comment, TableRow, Trim, IsTableSeparator, LineAtoms, RowAtoms, RowsAtoms, Rows;
    var all, at := before + lines, |before| + i;
    if i == |lines| {
      NoLines(all, mode);
      NoLines(lines, mode);
    } else if "```" <= lines[i] {
      FenceStep(all, at, mode);
      FenceStep(lines, i, mode);
      ContentShift(before, lines, i + 1, if mode.InCode? then Top else InCode);
    } else if mode.InCode? || Comment(lines[i]) {
      PassedStep(all, at, mode);
      PassedStep(lines, i, mode);
      ContentShift(before, lines, i + 1, mode);
    } else if HeadsTable(lines, i) {
      assert all[at + 1] == lines[i + 1];
      TableStep(all, at, mode);
      TableStep(lines, i, mode);
      RowsShift(before, lines, i + 2);
      ContentShift(before, lines, i + 2 + |Rows(lines, i + 2)|, Top);
    } else {
      assert i + 1 < |lines| ==> all[at + 1] == lines[i + 1];
      LineStep(all, at, mode);
      LineStep(lines, i, mode);
      ContentShift(before, lines, i + 1, LineAtoms(lines[i], mode).1);
    }
  }

  predicate OtherThanTable(line: string) {
    !("```" <= line) && !Comment(line) && !("|" <= Trim(line))
  }

  lemma LineReads(line: string, rest: seq<string>, mode: Mode)
    requires !mode.InCode? && OtherThanTable(line)
    ensures var (atoms, next) := LineAtoms(line, mode); Content([line] + rest, 0, mode) == atoms + Content(rest, 0, next)
  {
    hide Content, Comment, TableRow, Trim, IsTableSeparator, LineAtoms;
    LineStep([line] + rest, 0, mode);
    ContentShift([line], rest, 0, LineAtoms(line, mode).1);
  }

  lemma BlankReads(rest: seq<string>, mode: Mode)
    requires !mode.InCode?
    ensures Content([""] + rest, 0, mode) == Content(rest, 0, Top)
  {
    LineReads("", rest, mode);
  }

  lemma FirstEach(lines: seq<string>, f: string -> Atom)
    ensures Each(lines, f) == if lines == [] then [] else [f(lines[0])] + Each(lines[1..], f)
  {
  }

  lemma PlainReads(line: string, rest: seq<string>, mode: Mode)
    requires PlainLine(line) && (mode.Top? || mode.InPara?)
    ensures Content([line] + rest, 0, mode) ==
            (if mode.InPara? then [] else [ParaStart]) + [ParaLine(line)] + Content(rest, 0, InPara)
  {
    hide OrderedMarker, Content, Trim;
    TrimOfTrimmed(line);
    LineReads(line, rest, mode);
  }

  lemma {:induction false} TextGoesOn(lines: seq<string>, rest: seq<string>)
    requires forall k | 0 <= k < |lines| :: PlainLine(lines[k])
    ensures Content(lines + rest, 0, InPara) == Each(lines, t => ParaLine(t)) + Content(rest, 0, InPara)
  {
    hide Content, PlainLine, Each;
    if lines == [] {
      FirstEach(lines, t => ParaLine(t));
      assert lines + rest == rest;
    } else {
      TextGoesOn(lines[1..], rest);
      PlainReads(lines[0], lines[1..] + rest, InPara);
      FirstEach(lines, t => ParaLine(t));
      assert lines + rest == [lines[0]] + (lines[1..] + rest);
    }
  }

  lemma TextReads(lines: seq<string>, rest: seq<string>)
    requires Fits(Text(lines))
    ensures Content(Lines(Text(lines)) + rest, 0, Top) == ParaAtoms(lines) + Content(rest, 0, Top)
  {
    hide Content, PlainLine, Each;
    PlainReads(lines[0], lines[1..] + ([""] + rest), Top);
    TextGoesOn(lines[1..], [""] + rest);
    BlankReads(rest, InPara);
    FirstEach(lines, t => ParaLine(t));
    assert lines + [""] + rest == [lines[0]] + (lines[1..] + ([""] + rest));
  }

  // The lines of an entry, from its marker on.
  lemma MarkerReads(ordered: bool, e: Entry, rest: seq<string>, mode: Mode)
    requires PlainEntry(ordered, e) && !mode.InCode?
    ensures Content([EntryLines(ordered, e)[0]] + rest, 0, mode) ==
            (if mode == InList(ordered) then [] else [ListStart(ordered)]) + [ItemStart, ItemLine(e.text)]
            + Content(rest, 0, InList(ordered))
  {
    hide Content, Trim, OrderedMarker;
    var line := EntryLines(ordered, e)[0];
    TrimOfTrimmed(e.text);
    TrimKeepsHead(line);
    LineReads(line, rest, mode);
    if ordered {
      OrderedMarkerExactly(e.digits, e.text);
      assert line[|e.digits| + 2..] == e.text;
    } else {
      assert line[2..] == e.text;
    }
  }

  lemma MoreLine(line: string, rest: seq<string>, ordered: bool)
    requires Loose(line)
    ensures Content(["  " + line] + rest, 0, InList(ordered)) == [ItemLine(line)] + Content(rest, 0, InList(ordered))
  {
    hide Content, Trim, OrderedMarker;
    TrimIndented(line);
    NoMarker("  " + line);
    LineReads("  " + line, rest, InList(ordered));
  }

  lemma {:induction false} MoreReads(lines: seq<string>, rest: seq<string>, ordered: bool)
    requires forall k | 0 <= k < |lines| :: Loose(lines[k])
    ensures Content(Indented(lines) + rest, 0, InList(ordered)) ==
            Each(lines, t => ItemLine(t)) + Content(rest, 0, InList(ordered))
  {
    hide Content, Each, Loose;
    if lines == [] {
      FirstEach(lines, t => ItemLine(t));
      assert Indented(lines) + rest == rest;
    } else {
      MoreReads(lines[1..], rest, ordered);
      MoreLine(lines[0], Indented(lines[1..]) + rest, ordered);
      FirstEach(lines, t => ItemLine(t));
      assert Indented(lines) + rest == ["  " + lines[0]] + (Indented(lines[1..]) + rest);
    }
  }

  lemma NoMarker(line: string)
    requires line != "" && !('0' <= line[0] <= '9')
    ensures OrderedMarker(line) == 0
  {
  }

  lemma {:induction false} EntriesRead(ordered: bool, entries: seq<Entry>, rest: seq<string>)
    requires forall k | 0 <= k < |entries| :: PlainEntry(ordered, entries[k])
    ensures Content(EntriesLines(ordered, entries) + rest, 0, InList(ordered)) ==
            EntriesAtoms(entries) + Content(rest, 0, InList(ordered))
  {
    hide Content, PlainEntry, GrownAtoms, EntryLines;
    if entries == [] {
      assert EntriesLines(ordered, entries) + rest == rest;
    } else {
      var later := EntriesLines(ordered, entries[1..]) + rest;
      EntriesRead(ordered, entries[1..], rest);
      EntryReads(ordered, entries[0], later, InList(ordered));
      assert EntriesLines(ordered, entries) + rest == EntryLines(ordered, entries[0]) + later;
    }
  }

  lemma EntryReads(ordered: bool, e: Entry, rest: seq<string>, mode: Mode)
    requires PlainEntry(ordered, e) && !mode.InCode?
    ensures Content(EntryLines(ordered, e) + rest, 0, mode) ==
            (if mode == InList(ordered) then [] else [ListStart(ordered)]) + GrownAtoms([e.text] + e.more)
            + Content(rest, 0, InList(ordered))
  {
    hide Content, Each, Loose, Trimmed, Digits;
    MarkerReads(ordered, e, Indented(e.more) + rest, mode);
    MoreReads(e.more, rest, ordered);
    FirstEach([e.text] + e.more, t => ItemLine(t));
    assert EntryLines(ordered, e) + rest == [EntryLines(ordered, e)[0]] + (Indented(e.more) + rest);
  }

  lemma ListingReads(ordered: bool, entries: seq<Entry>, rest: seq<string>)
    requires Fits(Listing(ordered, entries))
    ensures Content(Lines(Listing(ordered, entries)) + rest, 0, Top) ==
            BlockAtoms(Listing(ordered, entries)) + Content(rest, 0, Top)
  {
    hide Content, PlainEntry, GrownAtoms;
    var tail := [""] + rest;
    EntryReads(ordered, entries[0], EntriesLines(ordered, entries[1..]) + tail, Top);
    EntriesRead(ordered, entries[1..], tail);
    BlankReads(rest, InList(ordered));
    assert EntriesLines(ordered, entries) + [""] + rest ==
           EntryLines(ordered, entries[0]) + (EntriesLines(ordered, entries[1..]) + tail);
  }

  lemma TitleReads(level: nat, text: string, rest: seq<string>)
    requires Fits(Title(level, text))
    ensures Content(Lines(Title(level, text)) + rest, 0, Top) == [HeadingText(level, text)] + Content(rest, 0, Top)
  {
    hide Content, Trim, OrderedMarker;
    var line := Lines(Title(level, text))[0];
    TrimOfTrimmed(text);
    TrimKeepsHead(line);
    LineReads(line, rest, Top);
    assert line[level..] == text && Lines(Title(level, text)) == [line];
    if level == 2 {
      assert "# " <= line;
    } else if level == 3 {
      assert "## " <= line && line[1] != ' ';
    } else {
      assert "### " <= line && line[1] != ' ' && line[2] != ' ';
    }
  }

  lemma FenceReads(line: string, rest: seq<string>, mode: Mode)
    requires "```" <= line
    ensures Content([line] + rest, 0, mode) ==
            if mode.InCode? then Content(rest, 0, Top) else [CodeStart(Trim(line[3..]))] + Content(rest, 0, InCode)
  {
    hide Content, Trim;
    FenceStep([line] + rest, 0, mode);
    ContentShift([line], rest, 0, if mode.InCode? then Top else InCode);
  }

  lemma {:induction false} CodeGoesOn(lines: seq<string>, rest: seq<string>)
    requires forall k | 0 <= k < |lines| :: !("```" <= lines[k])
    ensures Content(lines + (["```"] + rest), 0, InCode) == Each(lines, t => CodeLine(t)) + Content(rest, 0, Top)
  {
    hide Content, Comment, Each;
    FirstEach(lines, t => CodeLine(t));
    if lines == [] {
      FenceReads("```", rest, InCode);
      assert lines + (["```"] + rest) == ["```"] + rest;
    } else {
      CodeGoesOn(lines[1..], rest);
      PassedStep([lines[0]] + (lines[1..] + (["```"] + rest)), 0, InCode);
      ContentShift([lines[0]], lines[1..] + (["```"] + rest), 0, InCode);
      assert lines + (["```"] + rest) == [lines[0]] + (lines[1..] + (["```"] + rest));
    }
  }

  lemma CodeReads(info: string, lines: seq<string>, rest: seq<string>)
    requires Fits(Code(info, lines))
    ensures Content(Lines(Code(info, lines)) + rest, 0, Top) == CodeAtoms(lines, info) + Content(rest, 0, Top)
  {
    hide Content, Each, Trim;
    TrimOfTrimmed(info);
    FenceReads("```" + info, lines + (["```"] + rest), Top);
    CodeGoesOn(lines, rest);
    assert ("```" + info)[3..] == info;
    assert Lines(Code(info, lines)) + rest == ["```" + info] + (lines + (["```"] + rest));
  }

  lemma {:induction false} CellGoesOn(cell: string, rest: string, current: string)
    requires forall k | 0 <= k < |cell| :: cell[k] !in "|`\\"
    ensures SplitCells(cell + rest, current, false, false) == SplitCells(rest, current + cell, false, false)
  {
    hide Trim;
    if cell == "" {
      assert cell + rest == rest && current + cell == current;
    } else {
      CellGoesOn(cell[1..], rest, current + [cell[0]]);
      assert (cell + rest)[1..] == cell[1..] + rest && current + [cell[0]] + cell[1..] == current + cell;
    }
  }

  lemma {:induction false} CellsRead(cells: seq<string>)
    requires PlainRow(cells)
    ensures SplitCells(Joined(cells), "", false, false) == cells
  {
    hide Trim;
    TrimOfTrimmed(cells[0]);
    assert "" + cells[0] == cells[0];
    if |cells| == 1 {
      CellGoesOn(cells[0], "", "");
      assert cells[0] + "" == cells[0];
    } else {
      var later := "|" + Joined(cells[1..]);
      CellGoesOn(cells[0], later, "");
      CellsRead(cells[1..]);
      assert Joined(cells) == cells[0] + later && later[1..] == Joined(cells[1..]);
    }
  }

  lemma RowReads(cells: seq<string>)
    requires PlainRow(cells)
    ensures TableRow(RowLine(cells)) == cells && Trim(RowLine(cells)) == RowLine(cells) && "|" <= RowLine(cells)
  {
    hide Trim, SplitCells, PlainCell;
    var line := RowLine(cells);
    TrimOfTrimmed(line);
    CellsRead(cells);
    assert line[1..] == Joined(cells) + "|";
    assert (Joined(cells) + "|")[..|Joined(cells)|] == Joined(cells);
  }

  lemma {:induction false} RowsRead(rows: seq<seq<string>>, rest: seq<string>)
    requires forall k | 0 <= k < |rows| :: PlainRow(rows[k])
    ensures Rows(RowLines(rows) + ([""] + rest), 0) == rows
  {
    hide TableRow, PlainCell, RowLine;
    var tail := [""] + rest;
    if rows == [] {
      assert RowLines(rows) + tail == tail;
      assert !("|" <= Trim(""));
    } else {
      RowsRead(rows[1..], rest);
      OneRow(rows[0], RowLines(rows[1..]) + tail);
      assert RowLines(rows) + tail == [RowLine(rows[0])] + (RowLines(rows[1..]) + tail);
    }
  }

  lemma OneRow(cells: seq<string>, rest: seq<string>)
    requires PlainRow(cells)
    ensures Rows([RowLine(cells)] + rest, 0) == [cells] + Rows(rest, 0)
  {
    hide TableRow, PlainCell, Trim, RowLine;
    RowReads(cells);
    assert ([RowLine(cells)] + rest)[0] == RowLine(cells);
    RowsShift([RowLine(cells)], rest, 0);
  }

  lemma SeparatorReads()
    ensures IsTableSeparator("|---|")
  {
    hide TableRow, SplitCells, Trim;
    assert PlainRow(["---"]);
    RowReads(["---"]);
    assert RowLine(["---"]) == "|---|";
  }

  lemma GridReads(header: seq<string>, rows: seq<seq<string>>, rest: seq<string>)
    requires Fits(Grid(header, rows))
    ensures Content(Lines(Grid(header, rows)) + rest, 0, Top) == BlockAtoms(Grid(header, rows)) + Content(rest, 0, Top)
  {
    hide Content, PlainCell, RowAtoms, RowsAtoms, RowLine, TableRow, Trim, IsTableSeparator, Rows;
    var tail := [""] + rest;
    RowReads(header);
    SeparatorReads();
    TableReads(RowLine(header), "|---|", RowLines(rows) + tail);
    RowsRead(rows, rest);
    ContentShift(RowLines(rows), tail, 0, Top);
    BlankReads(rest, Top);
    assert Lines(Grid(header, rows)) + rest == [RowLine(header), "|---|"] + (RowLines(rows) + tail);
  }

  lemma TableReads(line: string, rule: string, rest: seq<string>)
    requires "|" <= line && Trim(line) == line && IsTableSeparator(rule)
    ensures Content([line, rule] + rest, 0, Top) ==
            RowAtoms(TableRow(line), true) + RowsAtoms(Rows(rest, 0), |TableRow(line)|) + Content(rest, |Rows(rest, 0)|, Top)
  {
    hide Content, TableRow, Trim, HasSuffix, IsTableSeparator, LineAtoms, RowAtoms, RowsAtoms, Rows;
    assert line[0] == '|';
    TableStep([line, rule] + rest, 0, Top);
    RowsShift([line, rule], rest, 0);
    ContentShift([line, rule], rest, |Rows(rest, 0)|, Top);
  }

  // ---------------------------------------------------------------------------------
  // Whatever the document, reading what it is written as gives back its blocks in order: each
  // paragraph, list with its items, heading, code block and table with its rows.
  lemma {:induction false} DocumentReads(blocks: seq<Block>)
    requires forall b <- blocks :: Fits(b)
    ensures Content(Document(blocks), 0, Top) == DocumentAtoms(blocks)
  {
    hide Content, Fits, Lines, BlockAtoms;
    if blocks == [] {
      NoLines([], Top);
    } else {
      BlockReads(blocks[0], Document(blocks[1..]));
      DocumentReads(blocks[1..]);
    }
  }

  lemma BlockReads(b: Block, rest: seq<string>)
    requires Fits(b)
    ensures Content(Lines(b) + rest, 0, Top) == BlockAtoms(b) + Content(rest, 0, Top)
  {
    hide Content, Fits, Lines;
    match b
    case Text(lines) => TextReads(lines, rest);
    case Listing(ordered, entries) => ListingReads(ordered, entries, rest);
    case Title(level, text) => TitleReads(level, text, rest);
    case Code(info, lines) => CodeReads(info, lines, rest);
    case Grid(header, rows) => GridReads(header, rows, rest);
  }
}
