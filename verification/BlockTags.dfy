/** The block structure that the specification preview writes for a list of Markdown lines. */
module BlockTags {
  import opened Wrappers

  // ---------------------------------------------------------------------------------
  // Lines

  predicate IsSpace(c: char) {
    c == ' ' || c == '\t' || c == '\n' || c == '\r' || c == '\U{000b}' || c == '\U{000c}'
  }

  function TrimLeft(s: string): string {
    if s != "" && IsSpace(s[0]) then TrimLeft(s[1..]) else s
  }

  function TrimRight(s: string): string {
    if s != "" && IsSpace(s[|s| - 1]) then TrimRight(s[..|s| - 1]) else s
  }

  function Trim(s: string): string {
    TrimRight(TrimLeft(s))
  }

  predicate HasSuffix(s: string, suffix: string) {
    |suffix| <= |s| && s[|s| - |suffix|..] == suffix
  }

  function DigitsEnd(s: string, i: nat): (j: nat)
    requires i <= |s|
    ensures i <= j <= |s|
    decreases |s| - i
  {
    if i < |s| && '0' <= s[i] <= '9' then DigitsEnd(s, i + 1) else i
  }

  // How much of a line the ordered-item marker takes: digits, a dot and a blank.
  function OrderedMarker(line: string): (n: nat)
    ensures n <= |line|
  {
    var d := DigitsEnd(line, 0);
    if d > 0 && ". " <= line[d..] then d + 2 else 0
  }

  function SplitCells(text: string, current: string, inCode: bool, escaped: bool): (cells: seq<string>)
    ensures cells != []
    decreases |text|
  {
    if text == "" then [Trim(current)]
    else
      var c, rest := text[0], text[1..];
      if escaped then SplitCells(rest, current + [c], inCode, false)
      else if c == '\\' then SplitCells(rest, current + [c], inCode, true)
      else if c == '`' then SplitCells(rest, current + [c], !inCode, false)
      else if c == '|' && !inCode then [Trim(current)] + SplitCells(rest, "", false, false)
      else SplitCells(rest, current + [c], inCode, false)
  }

  function TableRow(line: string): (cells: seq<string>)
    ensures cells != []
  {
    var trimmed := Trim(line);
    var text := if "|" <= trimmed then trimmed[1..] else trimmed;
    SplitCells(if HasSuffix(text, "|") then text[..|text| - 1] else text, "", false, false)
  }

  predicate SeparatorCell(cell: string) {
    |cell| >= 3 && forall i | 0 <= i < |cell| :: cell[i] == '-' || ((i == 0 || i == |cell| - 1) && cell[i] == ':')
  }

  predicate IsTableSeparator(line: string) {
    forall k | 0 <= k < |TableRow(line)| :: SeparatorCell(TableRow(line)[k])
  }

  // ---------------------------------------------------------------------------------
  // Output and its tags

  datatype Chunk =
    | Para(lines: seq<string>)     // joined by blanks
    | OpenList(ordered: bool)
    | CloseList(ordered: bool)
    | Item(lines: seq<string>)     // joined by blanks
    | Heading(level: nat, title: string)
    | CodeBlock(lines: seq<string>, info: string)
    | OpenTable
    | TableHead(cells: seq<string>)
    | OpenBody
    | BodyRow(cells: seq<string>)
    | CloseTable

  datatype Name = P | UL | OL | LI | H | PRE | DIV | TABLE | THEAD | TBODY | TR | TH | TD

  datatype Tag = Open(name: Name) | Close(name: Name)

  function Cells(n: nat, name: Name): seq<Tag> {
    if n == 0 then [] else Cells(n - 1, name) + [Open(name), Close(name)]
  }

  function TagsOf(c: Chunk): seq<Tag> {
    match c
    case Para(_) => [Open(P), Close(P)]
    case OpenList(ordered) => [Open(if ordered then OL else UL)]
    case CloseList(ordered) => [Close(if ordered then OL else UL)]
    case Item(_) => [Open(LI), Close(LI)]
    case Heading(_, _) => [Open(H), Close(H)]
    case CodeBlock(_, _) => [Open(PRE), Close(PRE)]
    case OpenTable => [Open(DIV), Open(TABLE)]
    case TableHead(cells) => [Open(THEAD), Open(TR)] + Cells(|cells|, TH) + [Close(TR), Close(THEAD)]
    case OpenBody => [Open(TBODY)]
    case BodyRow(cells) => [Open(TR)] + Cells(|cells|, TD) + [Close(TR)]
    case CloseTable => [Close(TBODY), Close(TABLE), Close(DIV)]
  }

  function Tags(out: seq<Chunk>): seq<Tag> {
    if out == [] then [] else Tags(out[..|out| - 1]) + TagsOf(out[|out| - 1])
  }

  // Which elements may stand directly inside which.
  predicate MayOpen(name: Name, stack: seq<Name>) {
    match name
    case LI => stack != [] && (stack[|stack| - 1] == UL || stack[|stack| - 1] == OL)
    case TABLE => stack != [] && stack[|stack| - 1] == DIV
    case THEAD => stack != [] && stack[|stack| - 1] == TABLE
    case TBODY => stack != [] && stack[|stack| - 1] == TABLE
    case TR => stack != [] && (stack[|stack| - 1] == THEAD || stack[|stack| - 1] == TBODY)
    case TH => stack != [] && stack[|stack| - 1] == TR
    case TD => stack != [] && stack[|stack| - 1] == TR
    case _ => stack == []
  }

  // The elements left open after some tags; None if a tag closes the wrong one, or opens one
  // where it may not stand.
  function Nest(tags: seq<Tag>, stack: seq<Name>): Option<seq<Name>>
    decreases |tags|
  {
    if tags == [] then Some(stack)
    else match tags[0]
      case Open(name) => if MayOpen(name, stack) then Nest(tags[1..], stack + [name]) else None
      case Close(name) =>
        if stack != [] && stack[|stack| - 1] == name then Nest(tags[1..], stack[..|stack| - 1]) else None
  }

  lemma {:induction false} NestConcat(a: seq<Tag>, b: seq<Tag>, stack: seq<Name>)
    ensures Nest(a + b, stack) == match Nest(a, stack) { case None => None case Some(mid) => Nest(b, mid) }
    decreases |a|
  {
    if a == [] {
      assert a + b == b;
    } else {
      assert (a + b)[1..] == a[1..] + b;
      match a[0]
      case Open(name) => NestConcat(a[1..], b, stack + [name]);
      case Close(name) =>
        if stack != [] {
          NestConcat(a[1..], b, stack[..|stack| - 1]);
        }
    }
  }

  lemma {:induction false} CellsNest(n: nat, name: Name, stack: seq<Name>)
    requires MayOpen(name, stack)
    ensures Nest(Cells(n, name), stack) == Some(stack)
  {
    if n > 0 {
      CellsNest(n - 1, name, stack);
      NestConcat(Cells(n - 1, name), [Open(name), Close(name)], stack);
      NestPair(name, stack);
    }
  }

  lemma NestPair(name: Name, stack: seq<Name>)
    requires MayOpen(name, stack)
    ensures Nest([Open(name), Close(name)], stack) == Some(stack)
  {
    NestOpen(name, stack);
    NestClose(name, stack);
    NestConcat([Open(name)], [Close(name)], stack);
    assert [Open(name)] + [Close(name)] == [Open(name), Close(name)];
  }

  lemma NestOpen(name: Name, stack: seq<Name>)
    requires MayOpen(name, stack)
    ensures Nest([Open(name)], stack) == Some(stack + [name])
  {
    assert [Open(name)][1..] == [];
  }

  lemma NestClose(name: Name, stack: seq<Name>)
    ensures Nest([Close(name)], stack + [name]) == Some(stack)
  {
    assert (stack + [name])[..|stack|] == stack;
    assert [Close(name)][1..] == [];
  }

  // Elements wrapped around tags that nest on their own.
  lemma NestWrap(name: Name, inner: seq<Tag>, stack: seq<Name>)
    requires MayOpen(name, stack) && Nest(inner, stack + [name]) == Some(stack + [name])
    ensures Nest([Open(name)] + inner + [Close(name)], stack) == Some(stack)
  {
    NestOpen(name, stack);
    NestConcat([Open(name)], inner, stack);
    NestClose(name, stack);
    NestConcat([Open(name)] + inner, [Close(name)], stack);
  }

  // What an output leaves open, in terms of its last chunk.
  function OpenAfter(out: seq<Chunk>): Option<seq<Name>> {
    Nest(Tags(out), [])
  }

  lemma Appended(out: seq<Chunk>, c: Chunk)
    ensures OpenAfter(out + [c]) == match OpenAfter(out) { case None => None case Some(stack) => Nest(TagsOf(c), stack) }
  {
    assert (out + [c])[..|out|] == out;
    NestConcat(Tags(out), TagsOf(c), []);
  }

  // The open elements that a chunk finds, and those it leaves; None where it does not belong.
  function After(c: Chunk, stack: seq<Name>): Option<seq<Name>> {
    match c
    case Para(_) => if stack == [] then Some([]) else None
    case Heading(_, _) => if stack == [] then Some([]) else None
    case CodeBlock(_, _) => if stack == [] then Some([]) else None
    case OpenList(ordered) => if stack == [] then Some([if ordered then OL else UL]) else None
    case CloseList(ordered) => if stack == [if ordered then OL else UL] then Some([]) else None
    case Item(_) => if stack == [UL] || stack == [OL] then Some(stack) else None
    case OpenTable => if stack == [] then Some([DIV, TABLE]) else None
    case TableHead(_) => if stack == [DIV, TABLE] then Some(stack) else None
    case OpenBody => if stack == [DIV, TABLE] then Some([DIV, TABLE, TBODY]) else None
    case BodyRow(_) => if stack == [DIV, TABLE, TBODY] then Some(stack) else None
    case CloseTable => if stack == [DIV, TABLE, TBODY] then Some([]) else None
  }

  lemma SimpleChunkNests(c: Chunk, stack: seq<Name>)
    requires After(c, stack).Some? && !c.OpenTable? && !c.TableHead? && !c.BodyRow? && !c.CloseTable?
    ensures Nest(TagsOf(c), stack) == After(c, stack)
  {
    hide Nest;
    match c
    case Para(_) => NestPair(P, stack);
    case Heading(_, _) => NestPair(H, stack);
    case CodeBlock(_, _) => NestPair(PRE, stack);
    case OpenList(ordered) =>
      NestOpen(if ordered then OL else UL, stack);
      assert stack + [if ordered then OL else UL] == [if ordered then OL else UL];
    case CloseList(ordered) =>
      NestClose(if ordered then OL else UL, []);
      assert [] + [if ordered then OL else UL] == stack;
    case Item(_) => NestPair(LI, stack);
    case OpenBody =>
      NestOpen(TBODY, stack);
      assert stack + [TBODY] == [DIV, TABLE, TBODY];
  }

  lemma TableEndsNest()
    ensures Nest(TagsOf(OpenTable), []) == Some([DIV, TABLE])
    ensures Nest(TagsOf(CloseTable), [DIV, TABLE, TBODY]) == Some([])
  {
    hide Nest;
    NestOpen(DIV, []);
    NestOpen(TABLE, [DIV]);
    NestConcat([Open(DIV)], [Open(TABLE)], []);
    assert [] + [DIV] == [DIV] && [DIV] + [TABLE] == [DIV, TABLE] && [DIV, TABLE] + [TBODY] == [DIV, TABLE, TBODY];
    assert [Open(DIV)] + [Open(TABLE)] == TagsOf(OpenTable);
    NestClose(TBODY, [DIV, TABLE]);
    NestClose(TABLE, [DIV]);
    NestClose(DIV, []);
    NestConcat([Close(TBODY)], [Close(TABLE)], [DIV, TABLE, TBODY]);
    NestConcat([Close(TBODY), Close(TABLE)], [Close(DIV)], [DIV, TABLE, TBODY]);
    assert [Close(TBODY)] + [Close(TABLE)] == [Close(TBODY), Close(TABLE)];
    assert [Close(TBODY), Close(TABLE)] + [Close(DIV)] == TagsOf(CloseTable);
  }

  lemma RowsNest(cells: seq<string>)
    ensures Nest(TagsOf(TableHead(cells)), [DIV, TABLE]) == Some([DIV, TABLE])
    ensures Nest(TagsOf(BodyRow(cells)), [DIV, TABLE, TBODY]) == Some([DIV, TABLE, TBODY])
  {
    hide Nest, Cells;
    var head, body := [DIV, TABLE], [DIV, TABLE, TBODY];
    CellsNest(|cells|, TH, head + [THEAD] + [TR]);
    NestWrap(TR, Cells(|cells|, TH), head + [THEAD]);
    NestWrap(THEAD, [Open(TR)] + Cells(|cells|, TH) + [Close(TR)], head);
    assert TagsOf(TableHead(cells)) == [Open(THEAD)] + ([Open(TR)] + Cells(|cells|, TH) + [Close(TR)]) + [Close(THEAD)];
    CellsNest(|cells|, TD, body + [TR]);
    NestWrap(TR, Cells(|cells|, TD), body);
  }

  lemma ChunkNests(c: Chunk, stack: seq<Name>)
    requires After(c, stack).Some?
    ensures Nest(TagsOf(c), stack) == After(c, stack)
  {
    hide Nest;
    match c
    case OpenTable => TableEndsNest();
    case CloseTable => TableEndsNest();
    case TableHead(cells) => RowsNest(cells);
    case BodyRow(cells) => RowsNest(cells);
    case _ => SimpleChunkNests(c, stack);
  }

  // ---------------------------------------------------------------------------------
  // What the lines say, block by block, independent of any output

  datatype Atom =
    | ParaStart
    | ParaLine(text: string)
    | ListStart(ordered: bool)
    | ItemStart
    | ItemLine(text: string)
    | HeadingText(level: nat, text: string)
    | CodeStart(info: string)
    | CodeLine(text: string)
    | RowStart(head: bool)
    | Cell(text: string)

  // Where a line finds itself.
  datatype Mode = Top | InPara | InList(ordered: bool) | InCode

  function Each(lines: seq<string>, f: string -> Atom): seq<Atom> {
    seq(|lines|, i requires 0 <= i < |lines| => f(lines[i]))
  }

  function ParaAtoms(lines: seq<string>): seq<Atom> {
    [ParaStart] + Each(lines, t => ParaLine(t))
  }

  function CodeAtoms(lines: seq<string>, info: string): seq<Atom> {
    [CodeStart(info)] + Each(lines, t => CodeLine(t))
  }

  function GrownAtoms(lines: seq<string>): seq<Atom> {
    [ItemStart] + Each(lines, t => ItemLine(t))
  }

  function RowAtoms(cells: seq<string>, head: bool): seq<Atom> {
    [RowStart(head)] + Each(cells, c => Cell(c))
  }

  function RowsAtoms(rows: seq<seq<string>>, n: nat): seq<Atom> {
    if rows == [] then [] else RowsAtoms(rows[..|rows| - 1], n) + RowAtoms(Padded(rows[|rows| - 1], n), false)
  }

  function Rows(lines: seq<string>, i: nat): (rows: seq<seq<string>>)
    requires i <= |lines|
    ensures i + |rows| <= |lines|
    decreases |lines| - i
  {
    if i < |lines| && "|" <= Trim(lines[i]) then [TableRow(lines[i])] + Rows(lines, i + 1) else []
  }

  // A table row with as many cells as the header has.
  function Padded(row: seq<string>, n: nat): seq<string> {
    seq(n, i requires 0 <= i => if i < |row| then row[i] else "")
  }

  // What a line that is neither code, fence, comment nor table says, and where it leads.
  function LineAtoms(line: string, mode: Mode): (seq<Atom>, Mode) {
    if Trim(line) == "" then ([], Top)
    else if "# " <= line then ([HeadingText(2, Trim(line[2..]))], Top)
    else if "## " <= line then ([HeadingText(3, Trim(line[3..]))], Top)
    else if "### " <= line then ([HeadingText(4, Trim(line[4..]))], Top)
    else if "- " <= line then (ItemAtoms(false, Trim(line[2..]), mode), InList(false))
    else if OrderedMarker(line) > 0 then (ItemAtoms(true, Trim(line[OrderedMarker(line)..]), mode), InList(true))
    else if mode.InList? && ("  " <= line || "\t" <= line) then ([ItemLine(Trim(line))], mode)
    else ((if mode.InPara? then [] else [ParaStart]) + [ParaLine(Trim(line))], InPara)
  }

  function ItemAtoms(ordered: bool, text: string, mode: Mode): seq<Atom> {
    (if mode == InList(ordered) then [] else [ListStart(ordered)]) + [ItemStart, ItemLine(text)]
  }

  function Content(lines: seq<string>, i: nat, mode: Mode): seq<Atom>
    requires i <= |lines|
    decreases |lines| - i
  {
    if i == |lines| then []
    else
      var line := lines[i];
      if "```" <= line then
        if mode.InCode? then Content(lines, i + 1, Top)
        else [CodeStart(Trim(line[3..]))] + Content(lines, i + 1, InCode)
      else if mode.InCode? then [CodeLine(line)] + Content(lines, i + 1, mode)
      else if "<!--" <= Trim(line) && HasSuffix(Trim(line), "-->") then Content(lines, i + 1, mode)
      else if "|" <= Trim(line) && i + 1 < |lines| && IsTableSeparator(lines[i + 1]) then
        var (header, rows) := (TableRow(line), Rows(lines, i + 2));
        RowAtoms(header, true) + RowsAtoms(rows, |header|) + Content(lines, i + 2 + |rows|, Top)
      else
        var (atoms, next) := LineAtoms(line, mode);
        atoms + Content(lines, i + 1, next)
  }

  lemma NoLines(lines: seq<string>, mode: Mode)
    ensures Content(lines, |lines|, mode) == []
  {
  }

  // What an output says.
  function ChunkAtoms(c: Chunk): seq<Atom> {
    match c
    case Para(lines) => ParaAtoms(lines)
    case OpenList(ordered) => [ListStart(ordered)]
    case Item(lines) => GrownAtoms(lines)
    case Heading(level, title) => [HeadingText(level, title)]
    case CodeBlock(lines, info) => CodeAtoms(lines, info)
    case TableHead(cells) => RowAtoms(cells, true)
    case BodyRow(cells) => RowAtoms(cells, false)
    case _ => []
  }

  function Atoms(out: seq<Chunk>): seq<Atom> {
    if out == [] then [] else Atoms(out[..|out| - 1]) + ChunkAtoms(out[|out| - 1])
  }

  lemma NoRows(rows: seq<seq<string>>, n: nat)
    ensures RowsAtoms(rows[..0], n) == []
  {
  }

  lemma RowsAtomsStep(rows: seq<seq<string>>, k: nat, n: nat)
    requires k < |rows|
    ensures RowsAtoms(rows[..k + 1], n) == RowsAtoms(rows[..k], n) + RowAtoms(Padded(rows[k], n), false)
  {
    assert rows[..k + 1][..k] == rows[..k];
  }

  lemma EachAppend(lines: seq<string>, text: string, f: string -> Atom)
    ensures Each(lines + [text], f) == Each(lines, f) + [f(text)]
  {
  }

  lemma OneItem(text: string)
    ensures ChunkAtoms(Item([text])) == [ItemStart, ItemLine(text)]
  {
  }

  lemma AtomsAppend(out: seq<Chunk>, c: Chunk)
    ensures Atoms(out + [c]) == Atoms(out) + ChunkAtoms(c)
  {
    assert (out + [c])[..|out|] == out;
  }

  lemma AtomsGrowItem(out: seq<Chunk>, lines: seq<string>, text: string)
    ensures Atoms(out + [Item(lines + [text])]) == Atoms(out + [Item(lines)]) + [ItemLine(text)]
  {
    hide Atoms, Each, GrownAtoms;
    AtomsAppend(out, Item(lines + [text]));
    AtomsAppend(out, Item(lines));
    GrownAppend(lines, text);
    Regroup(Atoms(out), GrownAtoms(lines), [ItemLine(text)]);
  }

  lemma GrownAppend(lines: seq<string>, text: string)
    ensures GrownAtoms(lines + [text]) == GrownAtoms(lines) + [ItemLine(text)]
  {
    EachAppend(lines, text, t => ItemLine(t));
  }

  lemma CodeAppend(lines: seq<string>, info: string, text: string)
    ensures CodeAtoms(lines + [text], info) == CodeAtoms(lines, info) + [CodeLine(text)]
    ensures CodeAtoms([], info) == [CodeStart(info)]
  {
    EachAppend(lines, text, t => CodeLine(t));
  }

  lemma ParaAppend(lines: seq<string>, text: string)
    ensures ParaAtoms(lines + [text]) == if lines == [] then [ParaStart, ParaLine(text)] else ParaAtoms(lines) + [ParaLine(text)]
  {
    EachAppend(lines, text, t => ParaLine(t));
  }

  lemma Regroup<T>(a: seq<T>, b: seq<T>, c: seq<T>)
    ensures a + (b + c) == a + b + c
  {
  }

  // ---------------------------------------------------------------------------------
  // The loop over the lines

  class Renderer {
    var out: seq<Chunk>
    var paragraph: seq<string>
    var code: seq<string>
    var inCode: bool
    var codeInfo: string
    var inUL: bool
    var inOL: bool

    // At most one thing is under way: a paragraph, one of the lists, or a code block.
    ghost predicate Valid()
      reads this
    {
      && OpenAfter(out) == Some(if inUL then [UL] else if inOL then [OL] else [])
      && !(inUL && inOL)
      && (paragraph != [] ==> !inUL && !inOL && !inCode)
      && (inCode ==> !inUL && !inOL)
      && (inUL || inOL ==> out != [] && out[|out| - 1].Item?)
    }

    function CurrentMode(): Mode
      reads this
    {
      if inCode then InCode else if inUL then InList(false) else if inOL then InList(true)
      else if paragraph != [] then InPara else Top
    }

    // What has been said so far: written out, or still under way.
    function Said(): seq<Atom>
      reads this
    {
      if inCode then Atoms(out) + CodeAtoms(code, codeInfo)
      else if paragraph != [] then Atoms(out) + ParaAtoms(paragraph)
      else Atoms(out)
    }

    constructor ()
      ensures Valid() && out == [] && CurrentMode() == Top && code == [] && Said() == []
    {
      out, paragraph, code, inCode, codeInfo, inUL, inOL := [], [], [], false, "", false, false;
    }

    method Emit(c: Chunk)
      requires OpenAfter(out).Some? && After(c, OpenAfter(out).value).Some?
      modifies this`out
      ensures out == old(out) + [c] && Atoms(out) == Atoms(old(out)) + ChunkAtoms(c)
      ensures OpenAfter(out) == After(c, old(OpenAfter(out).value))
    {
      hide OpenAfter, Nest;
      Appended(out, c);
      ChunkNests(c, OpenAfter(out).value);
      AtomsAppend(out, c);
      out := out + [c];
    }

    method CloseParagraph()
      requires Valid()
      modifies this`out, this`paragraph
      ensures Valid() && paragraph == [] && Said() == old(Said())
      ensures old(paragraph) == [] ==> out == old(out)
    {
      hide OpenAfter, Atoms, Each, ParaAtoms, CodeAtoms, RowAtoms, GrownAtoms;
      if |paragraph| > 0 {
        Emit(Para(paragraph));
        paragraph := [];
      }
    }

    method CloseLists()
      requires Valid()
      modifies this`out, this`inUL, this`inOL
      ensures Valid() && !inUL && !inOL && Said() == old(Said()) && Atoms(out) == Atoms(old(out))
      ensures !old(inUL) && !old(inOL) ==> out == old(out)
    {
      hide OpenAfter, Atoms, Each, ParaAtoms, CodeAtoms, RowAtoms, GrownAtoms;
      if inUL {
        Emit(CloseList(false));
        inUL := false;
      }
      if inOL {
        Emit(CloseList(true));
        inOL := false;
      }
    }

    method CloseBoth()
      requires Valid()
      modifies this`out, this`paragraph, this`inUL, this`inOL
      ensures Valid() && Said() == old(Said()) && paragraph == [] && !inUL && !inOL
      ensures old(CurrentMode()) == InCode ==> out == old(out)
    {
      CloseParagraph();
      CloseLists();
    }

    method Fence(line: string)
      requires Valid() && "```" <= line && (!inCode ==> code == [])
      modifies this
      ensures Valid() && (!inCode ==> code == []) && inCode == !old(inCode)
      ensures CurrentMode() == if old(inCode) then Top else InCode
      ensures Said() == old(Said()) + if old(inCode) then [] else [CodeStart(Trim(line[3..]))]
    {
      hide OpenAfter, Atoms, Each, ParaAtoms, CodeAtoms, RowAtoms, GrownAtoms;
      CloseBoth();
      if inCode {
        Emit(CodeBlock(code, codeInfo));
        code, codeInfo, inCode := [], "", false;
      } else {
        CodeAppend([], Trim(line[3..]), "");
        inCode, codeInfo := true, Trim(line[3..]);
      }
    }

    method CodeText(line: string)
      requires Valid() && inCode
      modifies this`code
      ensures Valid() && inCode && Said() == old(Said()) + [CodeLine(line)]
    {
      hide OpenAfter, Atoms, Each, ParaAtoms, CodeAtoms, RowAtoms, GrownAtoms;
      CodeAppend(code, codeInfo, line);
      Regroup(Atoms(out), CodeAtoms(code, codeInfo), [CodeLine(line)]);
      code := code + [line];
    }

    method PadRow(row: seq<string>, n: nat) returns (cells: seq<string>)
      ensures cells == Padded(row, n)
    {
      cells := [];
      for col := 0 to n
        invariant cells == Padded(row, col)
      {
        cells := cells + [if col < |row| then row[col] else ""];
      }
    }

    // Everything before the body rows.
    method OpenTableWith(header: seq<string>)
      requires Valid() && !inCode
      modifies this
      ensures OpenAfter(out) == Some([DIV, TABLE, TBODY]) && !inUL && !inOL && !inCode && paragraph == [] && code == old(code)
      ensures Atoms(out) == old(Said()) + RowAtoms(header, true)
    {
      hide OpenAfter, Atoms, RowAtoms;
      CloseBoth();
      Emit(OpenTable);
      Emit(TableHead(header));
      Emit(OpenBody);
    }

    method Table(header: seq<string>, rows: seq<seq<string>>)
      requires Valid() && !inCode
      modifies this
      ensures Valid() && CurrentMode() == Top && code == old(code)
      ensures Said() == old(Said()) + RowAtoms(header, true) + RowsAtoms(rows, |header|)
    {
      hide OpenAfter, Atoms, RowAtoms, RowsAtoms, Padded;
      OpenTableWith(header);
      NoRows(rows, |header|);
      ghost var start := Atoms(out);
      for k := 0 to |rows|
        invariant OpenAfter(out) == Some([DIV, TABLE, TBODY]) && !inUL && !inOL && !inCode && paragraph == [] && code == old(code)
        invariant Atoms(out) == start + RowsAtoms(rows[..k], |header|)
      {
        RowsAtomsStep(rows, k, |header|);
        var cells := PadRow(rows[k], |header|);
        Emit(BodyRow(cells));
        assert Atoms(out) == start + (RowsAtoms(rows[..k], |header|) + RowAtoms(cells, false));
      }
      assert rows[..|rows|] == rows;
      Emit(CloseTable);
    }

    method Title(level: nat, title: string)
      requires Valid() && !inCode
      modifies this`out, this`paragraph, this`inUL, this`inOL
      ensures Valid() && CurrentMode() == Top && Said() == old(Said()) + [HeadingText(level, title)]
    {
      hide OpenAfter, Atoms, Each, ParaAtoms, CodeAtoms, RowAtoms, GrownAtoms;
      CloseBoth();
      Emit(Heading(level, title));
    }

    // Makes sure that the right list is open.
    method InsideList(ordered: bool)
      requires Valid() && !inCode && paragraph == []
      modifies this`out, this`inUL, this`inOL
      ensures OpenAfter(out) == Some([if ordered then OL else UL]) && inOL == ordered && inUL == !ordered
      ensures Atoms(out) == Atoms(old(out)) + if old(CurrentMode()) == InList(ordered) then [] else [ListStart(ordered)]
    {
      hide OpenAfter, Atoms, Nest, Each, ParaAtoms, CodeAtoms, RowAtoms, GrownAtoms;
      if ordered {
        if !inOL {
          CloseLists();
          Emit(OpenList(true));
          inOL := true;
        }
      } else {
        if !inUL {
          CloseLists();
          Emit(OpenList(false));
          inUL := true;
        }
      }
    }

    method ListItem(ordered: bool, text: string)
      requires Valid() && !inCode
      modifies this`out, this`paragraph, this`inUL, this`inOL
      ensures Valid() && CurrentMode() == InList(ordered)
      ensures Said() == old(Said()) + ItemAtoms(ordered, text, old(CurrentMode()))
    {
      hide OpenAfter, Atoms, Nest, Each, ParaAtoms, CodeAtoms, RowAtoms, GrownAtoms;
      OneItem(text);
      CloseParagraph();
      InsideList(ordered);
      Emit(Item([text]));
    }

    // A continuation line grows the last item in place.
    method GrowItem(text: string)
      requires Valid() && !inCode && (inUL || inOL)
      modifies this`out
      ensures Valid() && Said() == old(Said()) + [ItemLine(text)]
    {
      hide OpenAfter, Atoms, Each, ParaAtoms, CodeAtoms, RowAtoms, GrownAtoms;
      var start, last := out[..|out| - 1], out[|out| - 1];
      ItemAlike(start, last.lines, last.lines + [text]);
      AtomsGrowItem(start, last.lines, text);
      assert out == start + [last];
      out := out[|out| - 1 := Item(last.lines + [text])];
      assert out == start + [Item(last.lines + [text])];
    }

    method OtherLine(line: string)
      requires Valid() && !inCode
      modifies this`out, this`paragraph, this`inUL, this`inOL
      ensures Valid() && CurrentMode() == LineAtoms(line, old(CurrentMode())).1
      ensures Said() == old(Said()) + LineAtoms(line, old(CurrentMode())).0
    {
      hide OpenAfter, Atoms, Trim, OrderedMarker, ItemAtoms;
      if Trim(line) == "" {
        CloseBoth();
      } else if "# " <= line {
        Title(2, Trim(line[2..]));
      } else if "## " <= line {
        Title(3, Trim(line[3..]));
      } else if "### " <= line {
        Title(4, Trim(line[4..]));
      } else if "- " <= line {
        ListItem(false, Trim(line[2..]));
      } else if OrderedMarker(line) > 0 {
        ListItem(true, Trim(line[OrderedMarker(line)..]));
      } else if (inUL || inOL) && ("  " <= line || "\t" <= line) && |out| > 0 && out[|out| - 1].Item? {
        GrowItem(Trim(line));
      } else {
        CloseLists();
        ParaAppend(paragraph, Trim(line));
        Regroup(Atoms(out), ParaAtoms(paragraph), [ParaLine(Trim(line))]);
        paragraph := paragraph + [Trim(line)];
      }
    }

    // One turn of the loop, from line i to line next.
    method Turn(lines: seq<string>, i: nat) returns (next: nat, ghost atoms: seq<Atom>)
      requires i < |lines| && Valid() && (!inCode ==> code == [])
      modifies this
      ensures i < next <= |lines| && Valid() && (!inCode ==> code == [])
      ensures Said() == old(Said()) + atoms
      ensures Content(lines, i, old(CurrentMode())) == atoms + Content(lines, next, CurrentMode())
    {
      hide OpenAfter, Atoms, Trim, TableRow, IsTableSeparator, HasSuffix, LineAtoms, RowAtoms, RowsAtoms, Said;
      var line := lines[i];
      next := i + 1;
      atoms := [];
      if "```" <= line {
        atoms := if inCode then [] else [CodeStart(Trim(line[3..]))];
        Fence(line);
        return;
      }
      if inCode {
        atoms := [CodeLine(line)];
        CodeText(line);
        return;
      }
      var trimmed := Trim(line);
      if "<!--" <= trimmed && HasSuffix(trimmed, "-->") {
        return;
      }
      if "|" <= trimmed && i + 1 < |lines| && IsTableSeparator(lines[i + 1]) {
        var header := TableRow(line);
        var rows;
        rows, next := TakeRows(lines, i + 2);
        atoms := RowAtoms(header, true) + RowsAtoms(rows, |header|);
        Table(header, rows);
        return;
      }
      atoms := LineAtoms(line, CurrentMode()).0;
      OtherLine(line);
    }

    method TakeRows(lines: seq<string>, start: nat) returns (rows: seq<seq<string>>, i: nat)
      requires start <= |lines|
      ensures rows == Rows(lines, start) && i == start + |rows|
    {
      rows, i := [], start;
      while i < |lines| && "|" <= Trim(lines[i])
        invariant start <= i <= |lines| && rows + Rows(lines, i) == Rows(lines, start) && i == start + |rows|
      {
        rows := rows + [TableRow(lines[i])];
        i := i + 1;
      }
    }

    // Whatever the lines, the output is balanced and says what the lines say, in order.
    method Render(lines: seq<string>)
      requires Valid() && CurrentMode() == Top && code == [] && Said() == []
      modifies this
      ensures Balanced(Tags(out)) && Atoms(out) == Content(lines, 0, Top)
    {
      hide OpenAfter, Atoms, Said, Content, CurrentMode;
      var i := 0;
      while i < |lines|
        invariant i <= |lines| && Valid() && (!inCode ==> code == [])
        invariant Said() + Content(lines, i, CurrentMode()) == Content(lines, 0, Top)
      {
        ghost var said, before := Said(), Content(lines, i, CurrentMode());
        ghost var atoms;
        i, atoms := Turn(lines, i);
        Regroup(said, atoms, Content(lines, i, CurrentMode()));
      }
      NoLines(lines, CurrentMode());
      Finish();
    }

    method Finish()
      requires Valid() && (!inCode ==> code == [])
      modifies this
      ensures Balanced(Tags(out)) && Atoms(out) == old(Said())
    {
      hide OpenAfter, Atoms, Each, ParaAtoms, CodeAtoms, RowAtoms, GrownAtoms;
      CloseBoth();
      if inCode {
        Emit(CodeBlock(code, codeInfo));
      }
      OpenAfterTags(out);
    }
  }

  // Every element that is opened is closed, in the right order and in a place it may stand.
  ghost predicate Balanced(tags: seq<Tag>) {
    Nest(tags, []) == Some([])
  }

  lemma OpenAfterTags(out: seq<Chunk>)
    ensures OpenAfter(out) == Some([]) <==> Balanced(Tags(out))
  {
  }

  lemma ItemAlike(out: seq<Chunk>, lines: seq<string>, lines': seq<string>)
    ensures OpenAfter(out + [Item(lines')]) == OpenAfter(out + [Item(lines)])
  {
    Appended(out, Item(lines));
    Appended(out, Item(lines'));
  }
}
