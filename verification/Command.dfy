/** Recursive expansion of INPUT statements (_command.py). */
module Command {
  import opened Wrappers
  import opened Bytes

  const NEWLINE: Byte := 10
  const RETURN: Byte := 13
  const DOUBLE_QUOTE: Byte := 34
  const SINGLE_QUOTE: Byte := 39
  const SEMICOLON: Byte := 59

  // -- quotes and statements ----------------------------------------------------------

  function NextQuote(quote: Option<Byte>, b: Byte): Option<Byte> {
    if b == DOUBLE_QUOTE || b == SINGLE_QUOTE then
      if quote == Some(b) then None else if quote == None then Some(b) else quote
    else quote
  }

  function QuoteAfter(s: Text, quote: Option<Byte>): Option<Byte> {
    if s == [] then quote else QuoteAfter(s[1..], NextQuote(quote, s[0]))
  }

  predicate Balanced(s: Text) {
    QuoteAfter(s, None) == None
  }

  predicate IsDelimiter(b: Byte) {
    b == SEMICOLON || b == NEWLINE
  }

  /** The offset of the first unquoted delimiter, or the length. */
  function StatementEnd(s: Text, quote: Option<Byte>): (e: nat)
    ensures e <= |s|
    ensures e < |s| ==> IsDelimiter(s[e])
  {
    if s == [] || (IsDelimiter(s[0]) && quote == None) then 0
    else 1 + StatementEnd(s[1..], NextQuote(quote, s[0]))
  }

  /** One statement and the delimiter that ends it (none after the last statement). */
  datatype Piece = Piece(statement: Text, delimiter: Text)

  function Pieces(s: Text): (r: seq<Piece>)
    ensures r != []
  {
    var e := StatementEnd(s, None);
    if e == |s| then [Piece(s, [])] else [Piece(s[..e], [s[e]])] + Pieces(s[e + 1..])
  }

  function Join(ps: seq<Piece>): Text {
    if ps == [] then [] else ps[0].statement + ps[0].delimiter + Join(ps[1..])
  }

  // -- INPUT statements -----------------------------------------------------------------

  predicate IsBlank(b: Byte) {
    b == 32 || b == 9
  }

  const INPUT: Text := [73, 78, 80, 85, 84]

  /** Optional blanks, the word INPUT in any case, a blank, and no newline anywhere. */
  predicate IsInput(statement: Text) {
    NEWLINE !in statement && StartsWithInput(statement)
  }

  predicate StartsWithInput(s: Text) {
    if s != [] && IsBlank(s[0]) then StartsWithInput(s[1..])
    else |s| >= 6 && Upper(s[..5]) == INPUT && IsBlank(s[5])
  }

  // -- included files ---------------------------------------------------------------------

  type File = string

  datatype IncludeError =
    | ComputedArgument | BadName | Missing | Cycle | TooDeep | NotRegular | TooLarge | NulByte

  /** Names resolve to files or fail; a regular file has bytes, and its size is their number. */
  datatype Library = Library(
    target: Text -> Result<File, IncludeError>,
    files: map<File, Text>,
    depth: int,
    maxBytes: int)

  function LineEnd(s: Text): (e: nat)
    ensures e <= |s|
  {
    if s == [] || s[0] == NEWLINE || s[0] == RETURN then 0 else 1 + LineEnd(s[1..])
  }

  function Lines(s: Text): seq<Text> {
    var e := LineEnd(s);
    if s == [] then []
    else if e == |s| then [s]
    else
      var crlf := s[e] == RETURN && e + 1 < |s| && s[e + 1] == NEWLINE;
      [s[..e]] + Lines(s[if crlf then e + 2 else e + 1..])
  }

  function JoinLines(lines: seq<Text>): Text {
    if lines == [] then []
    else if |lines| == 1 then lines[0]
    else lines[0] + [NEWLINE] + JoinLines(lines[1..])
  }

  /** A file's lines rejoined by newlines. */
  function Body(content: Text): Text {
    JoinLines(Lines(content))
  }

  function Members(stack: seq<File>): set<File> {
    set f | f in stack
  }

  /** Every check of one INPUT statement, in order, before its file is expanded. */
  function Admit(lib: Library, statement: Text, stack: seq<File>, total: int): (r: Result<File, IncludeError>)
    ensures r.Ok? ==> r.value in lib.files && r.value !in stack && |stack| + 1 <= lib.depth
    ensures r.Ok? ==> total + |lib.files[r.value]| <= lib.maxBytes
    ensures r.Ok? ==> lib.files.Keys - Members(stack + [r.value]) < lib.files.Keys - Members(stack)
  {
    var f :- lib.target(statement);
    if f in stack then Err(Cycle)
    else if |stack| + 1 > lib.depth then Err(TooDeep)
    else if f !in lib.files then Err(NotRegular)
    else
      var content := lib.files[f];
      if |content| > lib.maxBytes || total + |content| > lib.maxBytes then Err(TooLarge)
      else if 0 in content then Err(NulByte)
      else
        assert f in Members(stack + [f]) && f !in Members(stack);
        Ok(f)
  }

  // -- expansion ----------------------------------------------------------------------------

  /** What becomes of one piece: kept as it is, or replaced by the expansion of a file. */
  datatype Part =
    | Kept(piece: Piece)
    | Included(file: File, parts: seq<Part>, delimiter: Text)

  datatype Expansion = Expansion(parts: seq<Part>, total: int)

  function Expand(lib: Library, ps: seq<Piece>, stack: seq<File>, total: int): Result<Expansion, IncludeError>
    decreases lib.files.Keys - Members(stack), |ps|
  {
    if ps == [] then Ok(Expansion([], total))
    else
      var first :- ExpandPiece(lib, ps[0], stack, total);
      var rest :- Expand(lib, ps[1..], stack, first.1);
      Ok(Expansion([first.0] + rest.parts, rest.total))
  }

  function ExpandPiece(lib: Library, p: Piece, stack: seq<File>, total: int): Result<(Part, int), IncludeError>
    decreases lib.files.Keys - Members(stack), 0
  {
    if !IsInput(p.statement) then Ok((Kept(p), total))
    else
      var f :- Admit(lib, p.statement, stack, total);
      var nested :- Expand(lib, Pieces(Body(lib.files[f])), stack + [f], total + |lib.files[f]|);
      Ok((Included(f, nested.parts, p.delimiter), nested.total))
  }

  function RenderPart(p: Part): Text {
    match p
    case Kept(piece) => piece.statement + piece.delimiter
    case Included(_, parts, delimiter) => [NEWLINE] + Render(parts) + [NEWLINE] + delimiter
  }

  function Render(parts: seq<Part>): Text {
    if parts == [] then [] else RenderPart(parts[0]) + Render(parts[1..])
  }

  /** The byte budget that the whole recursion shares. */
  class Budget {
    var total: int

    constructor ()
      ensures total == 0
    {
      total := 0;
    }
  }

  /** Replace one INPUT statement, or keep the statement; the caller appends the delimiter. */
  method ExpandStatement(lib: Library, statement: Text, ghost delimiter: Text, stack: seq<File>, budget: Budget)
    returns (r: Result<Text, IncludeError>, ghost part: Part)
    modifies budget
    ensures match ExpandPiece(lib, Piece(statement, delimiter), stack, old(budget.total))
            case Err(e) => r == Err(e)
            case Ok(x) => part == x.0 && budget.total == x.1
                          && r.Ok? && r.value + delimiter == RenderPart(part)
    decreases lib.files.Keys - Members(stack), 0
  {
    part := Kept(Piece(statement, delimiter));
    if !IsInput(statement) {
      return Ok(statement), part;
    }
    var found := lib.target(statement);
    if found.Err? {
      return Err(found.error), part;
    }
    var f := found.value;
    if f in stack {
      return Err(Cycle), part;
    }
    if |stack| + 1 > lib.depth {
      return Err(TooDeep), part;
    }
    if f !in lib.files {
      return Err(NotRegular), part;
    }
    var content := lib.files[f];
    var size := |content|;
    budget.total := budget.total + size;
    if size > lib.maxBytes || budget.total > lib.maxBytes {
      return Err(TooLarge), part;
    }
    if 0 in content {
      return Err(NulByte), part;
    }
    assert Admit(lib, statement, stack, old(budget.total)) == Ok(f);
    var nested, parts := ExpandInput(lib, Body(content), stack + [f], budget);
    if nested.Err? {
      return Err(nested.error), part;
    }
    part := Included(f, parts, delimiter);
    return Ok([NEWLINE] + nested.value + [NEWLINE]), part;
  }

  /** The scanner: one pass over the bytes, replacing each INPUT statement as it ends. */
  method ExpandInput(lib: Library, command: Text, stack: seq<File>, budget: Budget)
    returns (r: Result<Text, IncludeError>, ghost parts: seq<Part>)
    modifies budget
    ensures match Expand(lib, Pieces(command), stack, old(budget.total))
            case Err(e) => r == Err(e)
            case Ok(x) => r == Ok(Render(x.parts)) && parts == x.parts && budget.total == x.total
    decreases lib.files.Keys - Members(stack), 1
  {
    hide Expand;
    hide ExpandPiece;
    hide IsInput;
    hide Render;
    hide RenderPart;
    hide Pieces;
    hide StatementEnd;
    hide After;
    hide Admit;
    var result: Text := [];
    var start := 0;
    var quote: Option<Byte> := None;
    parts := [];
    ghost var all := Expand(lib, Pieces(command), stack, budget.total);
    assert command[0..] == command;
    AfterNothing(all);
    var offset := 0;
    while offset < |command|
      invariant 0 <= start <= offset <= |command|
      invariant StatementEnd(command[start..], None)
             == offset - start + StatementEnd(command[offset..], quote)
      invariant all == After(parts, Expand(lib, Pieces(command[start..]), stack, budget.total))
      invariant result == Render(parts)
    {
      var byte := command[offset];
      EndStep(command, offset, quote);
      if byte == DOUBLE_QUOTE || byte == SINGLE_QUOTE {
        if quote == Some(byte) {
          quote := None;
        } else if quote == None {
          quote := Some(byte);
        }
      } else if IsDelimiter(byte) && quote == None {
        var statement := command[start..offset];
        PiecesAt(command, start, offset);
        ghost var before := budget.total;
        var replaced, part := ExpandStatement(lib, statement, [byte], stack, budget);
        AfterPiece(lib, Pieces(command[start..]), stack, before, parts);
        if replaced.Err? {
          return replaced, parts;
        }
        RenderAppend(parts, part);
        parts := parts + [part];
        result := result + replaced.value + [byte];
        start := offset + 1;
      }
      offset := offset + 1;
    }
    var statement := command[start..];
    assert command[offset..] == [];
    LastPiece(statement, quote);
    ghost var before := budget.total;
    var replaced, part := ExpandStatement(lib, statement, [], stack, budget);
    AfterPiece(lib, Pieces(statement), stack, before, parts);
    if replaced.Err? {
      return replaced, parts;
    }
    RenderAppend(parts, part);
    parts := parts + [part];
    assert replaced.value + [] == replaced.value;
    result := result + replaced.value;
    AfterAll(lib, parts, stack, budget.total);
    return Ok(result), parts;
  }

  lemma EndStep(command: Text, offset: nat, quote: Option<Byte>)
    requires offset < |command|
    ensures StatementEnd(command[offset..], quote)
         == if IsDelimiter(command[offset]) && quote == None then 0
            else 1 + StatementEnd(command[offset + 1..], NextQuote(quote, command[offset]))
  {
    assert command[offset..][1..] == command[offset + 1..];
  }

  lemma LastPiece(statement: Text, quote: Option<Byte>)
    requires StatementEnd(statement, None) == |statement| + StatementEnd([], quote)
    ensures Pieces(statement)[0] == Piece(statement, []) && Pieces(statement)[1..] == []
  {
  }

  lemma PiecesAt(command: Text, start: nat, offset: nat)
    requires start <= offset < |command| && StatementEnd(command[start..], None) == offset - start
    ensures var ps := Pieces(command[start..]);
            ps[0] == Piece(command[start..offset], [command[offset]])
            && ps[1..] == Pieces(command[offset + 1..])
  {
    var here := command[start..];
    assert here[..offset - start] == command[start..offset];
    assert here[offset - start + 1..] == command[offset + 1..];
  }

  // -- what the loop has done so far -------------------------------------------------

  function After(done: seq<Part>, rest: Result<Expansion, IncludeError>): Result<Expansion, IncludeError> {
    match rest
    case Err(e) => Err(e)
    case Ok(x) => Ok(Expansion(done + x.parts, x.total))
  }

  lemma AfterNothing(rest: Result<Expansion, IncludeError>)
    ensures After([], rest) == rest && Render([]) == []
  {
    if rest.Ok? {
      assert [] + rest.value.parts == rest.value.parts;
    }
  }

  lemma AfterAll(lib: Library, done: seq<Part>, stack: seq<File>, total: int)
    ensures After(done, Expand(lib, [], stack, total)) == Ok(Expansion(done, total))
  {
    assert done + [] == done;
  }

  lemma AfterPiece(lib: Library, ps: seq<Piece>, stack: seq<File>, total: int, done: seq<Part>)
    requires ps != []
    ensures var first := ExpandPiece(lib, ps[0], stack, total);
            After(done, Expand(lib, ps, stack, total))
            == if first.Err? then Err(first.error)
               else After(done + [first.value.0], Expand(lib, ps[1..], stack, first.value.1))
  {
    var first := ExpandPiece(lib, ps[0], stack, total);
    if first.Ok? {
      var rest := Expand(lib, ps[1..], stack, first.value.1);
      if rest.Ok? {
        assert done + ([first.value.0] + rest.value.parts) == done + [first.value.0] + rest.value.parts;
      }
    }
  }

  lemma {:induction false} RenderAppend(parts: seq<Part>, p: Part)
    ensures Render(parts + [p]) == Render(parts) + RenderPart(p)
    decreases |parts|
  {
    if parts == [] {
      assert [p][1..] == [];
    } else {
      RenderAppend(parts[1..], p);
      assert (parts + [p])[1..] == parts[1..] + [p];
    }
  }
}
