/** What INPUT expansion guarantees on every library of files. */
module Expansions {
  import opened Wrappers
  import opened Bytes
  import opened Command

  // -- one step of the recursion -----------------------------------------------------

  lemma ExpandStep(lib: Library, ps: seq<Piece>, stack: seq<File>, total: int)
    requires ps != [] && Expand(lib, ps, stack, total).Ok?
    ensures var first := ExpandPiece(lib, ps[0], stack, total);
            first.Ok? && Expand(lib, ps[1..], stack, first.value.1).Ok?
            && var x, rest := Expand(lib, ps, stack, total).value, Expand(lib, ps[1..], stack, first.value.1).value;
               x.total == rest.total && x.parts == [first.value.0] + rest.parts
               && x.parts[0] == first.value.0 && x.parts[1..] == rest.parts
  {
  }

  lemma IncludeStep(lib: Library, p: Piece, stack: seq<File>, total: int) returns (f: File, ps: seq<Piece>, total': int)
    requires IsInput(p.statement) && ExpandPiece(lib, p, stack, total).Ok?
    ensures f in lib.files && f !in stack && |stack| + 1 <= lib.depth
    ensures lib.files.Keys - Members(stack + [f]) < lib.files.Keys - Members(stack)
    ensures ps == Pieces(Body(lib.files[f])) && total' == total + |lib.files[f]| <= lib.maxBytes
    ensures Expand(lib, ps, stack + [f], total').Ok?
    ensures var x := Expand(lib, ps, stack + [f], total').value;
            ExpandPiece(lib, p, stack, total) == Ok((Included(f, x.parts, p.delimiter), x.total))
  {
    f := Admit(lib, p.statement, stack, total).value;
    ps := Pieces(Body(lib.files[f]));
    total' := total + |lib.files[f]|;
  }

  // -- the include tree ---------------------------------------------------------------

  /** A chain of includes, each inside the one before. */
  ghost predicate IsChain(parts: seq<Part>, chain: seq<File>) {
    chain == [] ||
    exists i: nat :: i < |parts| && parts[i].Included? && parts[i].file == chain[0]
                     && IsChain(parts[i].parts, chain[1..])
  }

  ghost predicate Distinct(files: seq<File>) {
    forall i, j :: 0 <= i < j < |files| ==> files[i] != files[j]
  }

  lemma DistinctPush(stack: seq<File>, f: File)
    requires Distinct(stack) && f !in stack
    ensures Distinct(stack + [f])
  {
  }

  /** No chain of includes repeats a file or is longer than the depth limit. */
  lemma {:induction false} ChainsAreShortAndDistinct(
    lib: Library, ps: seq<Piece>, stack: seq<File>, total: int, chain: seq<File>)
    requires Expand(lib, ps, stack, total).Ok?
    requires IsChain(Expand(lib, ps, stack, total).value.parts, chain)
    requires Distinct(stack)
    ensures Distinct(stack + chain)
    ensures chain != [] ==> |stack + chain| <= lib.depth
    decreases lib.files.Keys - Members(stack), |ps|
  {
    if chain == [] {
      assert stack + chain == stack;
    } else if ps != [] {
      var parts := Expand(lib, ps, stack, total).value.parts;
      ExpandStep(lib, ps, stack, total);
      ChainSplit(parts, chain);
      hide Expand, ExpandPiece, IsChain, Distinct;
      var first := ExpandPiece(lib, ps[0], stack, total).value;
      if IsChain(parts[1..], chain) {
        ChainsAreShortAndDistinct(lib, ps[1..], stack, first.1, chain);
      } else {
        PieceChains(lib, ps[0], stack, total, chain);
      }
    }
  }

  lemma {:induction false} PieceChains(lib: Library, p: Piece, stack: seq<File>, total: int, chain: seq<File>)
    requires ExpandPiece(lib, p, stack, total).Ok? && Distinct(stack) && chain != []
    requires var part := ExpandPiece(lib, p, stack, total).value.0;
             part.Included? && part.file == chain[0] && IsChain(part.parts, chain[1..])
    ensures Distinct(stack + chain) && |stack + chain| <= lib.depth
    decreases lib.files.Keys - Members(stack), 0
  {
    var f, inner, total' := IncludeStep(lib, p, stack, total);
    DistinctPush(stack, f);
    hide Expand, ExpandPiece, Admit, IsInput, IsChain, Distinct;
    ChainsAreShortAndDistinct(lib, inner, stack + [f], total', chain[1..]);
    assert stack + [f] + chain[1..] == stack + chain;
  }

  /** A chain starts in the first part, or in one of the others. */
  lemma ChainSplit(parts: seq<Part>, chain: seq<File>)
    requires IsChain(parts, chain) && chain != [] && parts != []
    ensures IsChain(parts[1..], chain)
         || (parts[0].Included? && parts[0].file == chain[0] && IsChain(parts[0].parts, chain[1..]))
  {
    var i: nat :| i < |parts| && parts[i].Included? && parts[i].file == chain[0] && IsChain(parts[i].parts, chain[1..]);
    if i > 0 {
      assert parts[1..][i - 1] == parts[i];
    }
  }

  /** The bytes of every included file, counted as often as it is included. */
  function IncludedBytes(lib: Library, parts: seq<Part>): int {
    if parts == [] then 0
    else PartBytes(lib, parts[0]) + IncludedBytes(lib, parts[1..])
  }

  function PartBytes(lib: Library, p: Part): int {
    match p
    case Kept(_) => 0
    case Included(f, parts, _) =>
      (if f in lib.files then |lib.files[f]| else 0) + IncludedBytes(lib, parts)
  }

  lemma {:induction false} InputIsLong(s: Text)
    requires StartsWithInput(s)
    ensures |s| >= 6
    decreases |s|
  {
    if s != [] && IsBlank(s[0]) {
      InputIsLong(s[1..]);
    }
  }

  lemma {:induction false} JoinPieces(s: Text)
    ensures Join(Pieces(s)) == s
    decreases |s|
  {
    var e := StatementEnd(s, None);
    if e == |s| {
      assert Join([Piece(s, [])]) == s + [] + [];
    } else {
      JoinPieces(s[e + 1..]);
      assert Pieces(s)[1..] == Pieces(s[e + 1..]);
      assert s == s[..e] + [s[e]] + s[e + 1..];
    }
  }

  lemma {:induction false} BodyNoLonger(content: Text)
    ensures |Body(content)| <= |content|
    decreases |content|
  {
    var e := LineEnd(content);
    if content != [] && e < |content| {
      var crlf := content[e] == RETURN && e + 1 < |content| && content[e + 1] == NEWLINE;
      var rest := content[if crlf then e + 2 else e + 1..];
      BodyNoLonger(rest);
      assert Lines(content)[1..] == Lines(rest);
    }
  }

  /** The expansion is no longer than the command and the included files together, and the
      budget counts exactly those files. */
  lemma {:induction false} SizeBound(lib: Library, ps: seq<Piece>, stack: seq<File>, total: int)
    requires Expand(lib, ps, stack, total).Ok?
    ensures var x := Expand(lib, ps, stack, total).value;
            x.total == total + IncludedBytes(lib, x.parts)
            && IncludedBytes(lib, x.parts) >= 0
            && |Render(x.parts)| <= |Join(ps)| + IncludedBytes(lib, x.parts)
    decreases lib.files.Keys - Members(stack), |ps|
  {
    if ps != [] {
      var x := Expand(lib, ps, stack, total).value;
      var first := ExpandPiece(lib, ps[0], stack, total).value;
      ExpandStep(lib, ps, stack, total);
      PieceSize(lib, ps[0], stack, total);
      SizeBound(lib, ps[1..], stack, first.1);
    }
  }

  lemma {:induction false} PieceSize(lib: Library, p: Piece, stack: seq<File>, total: int)
    requires ExpandPiece(lib, p, stack, total).Ok?
    ensures var x := ExpandPiece(lib, p, stack, total).value;
            x.1 == total + PartBytes(lib, x.0) && PartBytes(lib, x.0) >= 0
            && |RenderPart(x.0)| <= |p.statement| + |p.delimiter| + PartBytes(lib, x.0)
    decreases lib.files.Keys - Members(stack), 0
  {
    if IsInput(p.statement) {
      var f, inner, total' := IncludeStep(lib, p, stack, total);
      var content := lib.files[f];
      SizeBound(lib, inner, stack + [f], total');
      JoinPieces(Body(content));
      BodyNoLonger(content);
      InputIsLong(p.statement);
    }
  }

  /** Once anything is included, the running total respects the byte limit. */
  lemma {:induction false} WithinBudget(lib: Library, ps: seq<Piece>, stack: seq<File>, total: int)
    requires Expand(lib, ps, stack, total).Ok?
    ensures var x := Expand(lib, ps, stack, total).value;
            x.total <= lib.maxBytes || AllKept(x.parts)
    decreases lib.files.Keys - Members(stack), |ps|
  {
    if ps != [] {
      ExpandStep(lib, ps, stack, total);
      hide Expand;
      hide Admit;
      var first := ExpandPiece(lib, ps[0], stack, total).value;
      WithinBudget(lib, ps[1..], stack, first.1);
      SizeBound(lib, ps[1..], stack, first.1);
      var rest := Expand(lib, ps[1..], stack, first.1).value;
      if AllKept(rest.parts) && IsInput(ps[0].statement) {
        NothingIncluded(lib, rest.parts);
        var f, inner, total' := IncludeStep(lib, ps[0], stack, total);
        WithinBudget(lib, inner, stack + [f], total');
        SizeBound(lib, inner, stack + [f], total');
        var nested := Expand(lib, inner, stack + [f], total').value;
        if AllKept(nested.parts) {
          NothingIncluded(lib, nested.parts);
        }
      }
    }
  }

  predicate AllKept(parts: seq<Part>) {
    forall i :: 0 <= i < |parts| ==> parts[i].Kept?
  }

  lemma {:induction false} NothingIncluded(lib: Library, parts: seq<Part>)
    requires AllKept(parts)
    ensures IncludedBytes(lib, parts) == 0
    decreases |parts|
  {
    if parts != [] {
      NothingIncluded(lib, parts[1..]);
    }
  }

  /** From a fresh budget: at most the command and the byte limit, unless nothing was included. */
  lemma ExpansionIsBounded(lib: Library, command: Text)
    requires Expand(lib, Pieces(command), [], 0).Ok?
    ensures var x := Expand(lib, Pieces(command), [], 0).value;
            |Render(x.parts)| <= |command| + IncludedBytes(lib, x.parts)
            && (|Render(x.parts)| <= |command| + lib.maxBytes || x.parts == KeptAll(Pieces(command)))
  {
    var x := Expand(lib, Pieces(command), [], 0).value;
    SizeBound(lib, Pieces(command), [], 0);
    JoinPieces(command);
    WithinBudget(lib, Pieces(command), [], 0);
    if AllKept(x.parts) {
      KeptPartsArePieces(lib, Pieces(command), [], 0);
    }
  }

  function KeptAll(ps: seq<Piece>): (r: seq<Part>)
    ensures |r| == |ps| && forall i :: 0 <= i < |r| ==> r[i] == Kept(ps[i])
  {
    seq(|ps|, i requires 0 <= i < |ps| => Kept(ps[i]))
  }

  /** Part by part: a statement that is not INPUT is kept, an INPUT one becomes its file, and
      the delimiters stay. */
  lemma {:induction false} PartsAlign(lib: Library, ps: seq<Piece>, stack: seq<File>, total: int)
    requires Expand(lib, ps, stack, total).Ok?
    ensures var parts := Expand(lib, ps, stack, total).value.parts;
            |parts| == |ps| && forall i :: 0 <= i < |ps| ==>
              match parts[i]
              case Kept(p) => p == ps[i] && !IsInput(p.statement)
              case Included(f, _, delimiter) =>
                IsInput(ps[i].statement) && lib.target(ps[i].statement) == Ok(f)
                && delimiter == ps[i].delimiter
    decreases |ps|
  {
    if ps != [] {
      var first := ExpandPiece(lib, ps[0], stack, total).value;
      PartsAlign(lib, ps[1..], stack, first.1);
    }
  }

  lemma KeptPartsArePieces(lib: Library, ps: seq<Piece>, stack: seq<File>, total: int)
    requires Expand(lib, ps, stack, total).Ok?
    requires AllKept(Expand(lib, ps, stack, total).value.parts)
    ensures Expand(lib, ps, stack, total).value.parts == KeptAll(ps)
  {
    PartsAlign(lib, ps, stack, total);
  }

  // -- reading the expansion again -------------------------------------------------------

  predicate Closed(p: Piece) {
    Balanced(p.statement) && StatementEnd(p.statement, None) == |p.statement|
  }

  /** Pieces that a scan would find again: whole statements, each but the last delimited. */
  predicate Scanned(ps: seq<Piece>) {
    ps != [] && Closed(ps[0]) &&
    if |ps| == 1 then ps[0].delimiter == []
    else |ps[0].delimiter| == 1 && IsDelimiter(ps[0].delimiter[0]) && Scanned(ps[1..])
  }

  lemma {:induction false} QuoteConcat(a: Text, b: Text, quote: Option<Byte>)
    ensures QuoteAfter(a + b, quote) == QuoteAfter(b, QuoteAfter(a, quote))
    decreases |a|
  {
    if a == [] {
      assert a + b == b;
    } else {
      QuoteConcat(a[1..], b, NextQuote(quote, a[0]));
      assert (a + b)[1..] == a[1..] + b;
    }
  }

  lemma {:induction false} KeepsQuote(s: Text, quote: Option<Byte>)
    requires forall i :: 0 <= i < |s| ==> s[i] != DOUBLE_QUOTE && s[i] != SINGLE_QUOTE
    ensures QuoteAfter(s, quote) == quote
    decreases |s|
  {
    if s != [] {
      KeepsQuote(s[1..], quote);
    }
  }

  /** Up to the end of its first statement a text holds no unquoted delimiter; a delimiter ends it
      outside quotes. */
  lemma {:induction false} StatementPrefix(s: Text, quote: Option<Byte>)
    ensures var e := StatementEnd(s, quote);
            StatementEnd(s[..e], quote) == e && (e < |s| ==> QuoteAfter(s[..e], quote) == None)
    decreases |s|
  {
    var e := StatementEnd(s, quote);
    if e > 0 {
      StatementPrefix(s[1..], NextQuote(quote, s[0]));
      assert s[..e][1..] == s[1..][..e - 1];
    }
  }

  lemma {:induction false} EndConcat(a: Text, d: Byte, b: Text, quote: Option<Byte>)
    requires StatementEnd(a, quote) == |a| && QuoteAfter(a, quote) == None && IsDelimiter(d)
    ensures StatementEnd(a + [d] + b, quote) == |a|
    decreases |a|
  {
    var s := a + [d] + b;
    if a != [] {
      EndConcat(a[1..], d, b, NextQuote(quote, a[0]));
      assert s[1..] == a[1..] + [d] + b;
    }
  }

  lemma {:induction false} BalancedPieces(s: Text)
    requires Balanced(s)
    ensures Scanned(Pieces(s))
    decreases |s|
  {
    var e := StatementEnd(s, None);
    StatementPrefix(s, None);
    if e == |s| {
      assert s[..e] == s;
    } else {
      var rest := s[e + 1..];
      assert s == s[..e] + ([s[e]] + rest);
      QuoteConcat(s[..e], [s[e]] + rest, None);
      QuoteConcat([s[e]], rest, None);
      KeepsQuote([s[e]], None);
      BalancedPieces(rest);
      assert Pieces(s)[1..] == Pieces(rest);
    }
  }

  /** A closed statement and a delimiter in front of a text are its first piece. */
  lemma FirstPiece(statement: Text, d: Byte, rest: Text)
    requires Closed(Piece(statement, [d])) && IsDelimiter(d)
    ensures Pieces(statement + [d] + rest) == [Piece(statement, [d])] + Pieces(rest)
    ensures Balanced(statement + [d] + rest) <==> Balanced(rest)
  {
    var s := statement + [d] + rest;
    EndConcat(statement, d, rest, None);
    assert s[..|statement|] == statement && s[|statement| + 1..] == rest;
    assert s == statement + ([d] + rest);
    QuoteConcat(statement, [d] + rest, None);
    QuoteConcat([d], rest, None);
    KeepsQuote([d], None);
  }

  /** Scanning the joined pieces finds the same pieces. */
  lemma {:induction false} JoinScans(ps: seq<Piece>)
    requires Scanned(ps)
    ensures Pieces(Join(ps)) == ps && Balanced(Join(ps))
    decreases |ps|
  {
    var p := ps[0];
    if |ps| == 1 {
      OneScans(p);
      assert ps == [p];
    } else {
      JoinScans(ps[1..]);
      hide Pieces, Balanced, Closed;
      assert p.delimiter == [p.delimiter[0]];
      FirstPiece(p.statement, p.delimiter[0], Join(ps[1..]));
      assert ps == [p] + ps[1..];
    }
  }

  lemma OneScans(p: Piece)
    requires Closed(p) && p.delimiter == []
    ensures Pieces(Join([p])) == [p] && Balanced(Join([p]))
  {
    JoinOne(p);
    assert p.statement + p.delimiter == p.statement;
  }

  /** The pieces of an expansion: kept pieces as they are, and for an included file an empty
      statement, the file's own pieces, and an empty statement before the delimiter. */
  function Flat(parts: seq<Part>): seq<Piece> {
    if parts == [] then [] else FlatPart(parts[0]) + Flat(parts[1..])
  }

  function FlatPart(p: Part): seq<Piece> {
    match p
    case Kept(piece) => [piece]
    case Included(_, parts, delimiter) =>
      [Piece([], [NEWLINE])] + EndWith(Flat(parts), [NEWLINE]) + [Piece([], delimiter)]
  }

  /** The same pieces with another delimiter after the last. */
  function EndWith(ps: seq<Piece>, delimiter: Text): seq<Piece> {
    if ps == [] then [] else ps[..|ps| - 1] + [Piece(ps[|ps| - 1].statement, delimiter)]
  }

  lemma EndWithTwice(ps: seq<Piece>, d: Text, delimiter: Text)
    ensures EndWith(EndWith(ps, d), delimiter) == EndWith(ps, delimiter)
    ensures ps != [] && ps[|ps| - 1].delimiter == delimiter ==> EndWith(ps, delimiter) == ps
  {
    if ps != [] {
      assert EndWith(ps, d)[..|ps| - 1] == ps[..|ps| - 1];
    }
  }

  lemma EndWithIs(ps: seq<Piece>, delimiter: Text) returns (front: seq<Piece>, last: Piece)
    requires ps != []
    ensures ps == front + [last] && EndWith(ps, delimiter) == front + [Piece(last.statement, delimiter)]
    ensures last == ps[|ps| - 1]
  {
    front, last := ps[..|ps| - 1], ps[|ps| - 1];
  }

  lemma JoinEndWith(ps: seq<Piece>, delimiter: Text)
    requires ps != [] && ps[|ps| - 1].delimiter == []
    ensures Join(EndWith(ps, delimiter)) == Join(ps) + delimiter
  {
    var front, last := EndWithIs(ps, delimiter);
    hide Join, EndWith;
    JoinSnoc(front, last);
    JoinSnoc(front, Piece(last.statement, delimiter));
    Regroup(Join(front), last.statement, delimiter);
  }

  lemma JoinSnoc(front: seq<Piece>, last: Piece)
    ensures Join(front + [last]) == Join(front) + (last.statement + last.delimiter)
  {
    JoinAppend(front, [last]);
    JoinOne(last);
  }

  lemma Regroup(a: Text, b: Text, c: Text)
    ensures a + (b + c) == a + (b + []) + c
  {
  }

  lemma Associative(a: Text, b: Text, c: Text)
    ensures a + (b + c) == a + b + c
  {
  }

  lemma {:induction false} JoinAppend(a: seq<Piece>, b: seq<Piece>)
    ensures Join(a + b) == Join(a) + Join(b)
    decreases |a|
  {
    if a == [] {
      assert a + b == b;
    } else {
      JoinAppend(a[1..], b);
      assert (a + b)[1..] == a[1..] + b;
    }
  }

  lemma {:induction false} LastIsBare(ps: seq<Piece>)
    requires Scanned(ps)
    ensures ps[|ps| - 1].delimiter == []
    decreases |ps|
  {
    if |ps| > 1 {
      LastIsBare(ps[1..]);
    }
  }

  lemma {:induction false} ScannedAppend(a: seq<Piece>, d: Byte, b: seq<Piece>)
    requires Scanned(a) && Scanned(b) && IsDelimiter(d)
    ensures Scanned(EndWith(a, [d]) + b)
    decreases |a|
  {
    var whole := EndWith(a, [d]) + b;
    if |a| == 1 {
      assert whole[1..] == b;
    } else {
      ScannedAppend(a[1..], d, b);
      assert whole[1..] == EndWith(a[1..], [d]) + b;
    }
  }

  /** Every file that was included, at any depth, has balanced quotes. */
  predicate IncludedBalanced(lib: Library, parts: seq<Part>) {
    parts == [] || (PartBalanced(lib, parts[0]) && IncludedBalanced(lib, parts[1..]))
  }

  predicate PartBalanced(lib: Library, p: Part) {
    match p
    case Kept(_) => true
    case Included(f, parts, _) => (f in lib.files ==> Balanced(lib.files[f])) && IncludedBalanced(lib, parts)
  }

  predicate NoInput(ps: seq<Piece>) {
    forall i :: 0 <= i < |ps| ==> !IsInput(ps[i].statement)
  }

  /** How many bytes end the line that stops at e. */
  function EndingLength(content: Text, e: nat): nat
    requires e < |content|
    ensures e + EndingLength(content, e) <= |content|
  {
    if content[e] == RETURN && e + 1 < |content| && content[e + 1] == NEWLINE then 2 else 1
  }

  lemma LinesStep(content: Text, rest: Text)
    requires LineEnd(content) < |content|
             && rest == content[LineEnd(content) + EndingLength(content, LineEnd(content))..]
    ensures Lines(content) == [content[..LineEnd(content)]] + Lines(rest) && (Lines(rest) == [] <==> rest == [])
  {
    hide LineEnd, JoinLines;
  }

  lemma JoinFirst(line: Text, lines: seq<Text>)
    ensures JoinLines([line] + lines) == if lines == [] then line else line + [NEWLINE] + JoinLines(lines)
  {
    assert ([line] + lines)[1..] == lines;
  }

  lemma BodyStep(content: Text, rest: Text)
    requires LineEnd(content) < |content|
             && rest == content[LineEnd(content) + EndingLength(content, LineEnd(content))..]
    ensures Body(content)
         == if rest == [] then content[..LineEnd(content)] else content[..LineEnd(content)] + [NEWLINE] + Body(rest)
  {
    LinesStep(content, rest);
    JoinFirst(content[..LineEnd(content)], Lines(rest));
    hide LineEnd, Lines, JoinLines, EndingLength;
  }

  lemma ThreeParts(content: Text, e: nat, k: nat)
    requires e + k <= |content|
    ensures content == content[..e] + content[e..e + k] + content[e + k..]
  {
  }

  lemma EndingBytes(content: Text)
    requires LineEnd(content) < |content|
    ensures var e := LineEnd(content);
            var ending := content[e..e + EndingLength(content, e)];
            ending != [] && forall i :: 0 <= i < |ending| ==> ending[i] == NEWLINE || ending[i] == RETURN
  {
    LineEndIs(content);
    hide LineEnd;
  }

  /** A file's first line, its line ending, and the rest of the file. */
  lemma FirstLine(content: Text) returns (line: Text, ending: Text, rest: Text)
    requires LineEnd(content) < |content|
    ensures content == line + ending + rest && ending != []
    ensures forall i :: 0 <= i < |ending| ==> ending[i] == NEWLINE || ending[i] == RETURN
    ensures Body(content) == if rest == [] then line else line + [NEWLINE] + Body(rest)
  {
    hide LineEnd, Body, EndingLength;
    var e := LineEnd(content);
    var k := EndingLength(content, e);
    line, ending, rest := content[..e], content[e..e + k], content[e + k..];
    ThreeParts(content, e, k);
    EndingBytes(content);
    BodyStep(content, rest);
  }

  lemma {:induction false} BodyQuotes(content: Text, quote: Option<Byte>)
    ensures QuoteAfter(Body(content), quote) == QuoteAfter(content, quote)
    decreases |content|
  {
    if LineEnd(content) < |content| {
      var line, ending, rest := FirstLine(content);
      hide LineEnd, Body;
      BodyQuotes(rest, QuoteAfter(line, quote));
      SeparatorQuotes(line, ending, rest, quote);
      if rest != [] {
        SeparatorQuotes(line, [NEWLINE], Body(rest), quote);
      } else {
        EmptyBody();
      }
    }
  }

  lemma EmptyBody()
    ensures Body([]) == []
  {
  }

  lemma SeparatorQuotes(line: Text, ending: Text, rest: Text, quote: Option<Byte>)
    requires forall i :: 0 <= i < |ending| ==> ending[i] == NEWLINE || ending[i] == RETURN
    ensures QuoteAfter(line + ending + rest, quote) == QuoteAfter(rest, QuoteAfter(line, quote))
  {
    QuoteConcat(line + ending, rest, quote);
    QuoteConcat(line, ending, quote);
    KeepsQuote(ending, QuoteAfter(line, quote));
  }

  lemma {:induction false} LineEndIs(s: Text)
    ensures var e := LineEnd(s); e < |s| ==> s[e] == NEWLINE || s[e] == RETURN
    decreases |s|
  {
    if s != [] && s[0] != NEWLINE && s[0] != RETURN {
      LineEndIs(s[1..]);
    }
  }

  /** Delimited pieces in front of scanned ones are scanned together. */
  lemma InFront(flat: seq<Piece>, d: Byte, more: seq<Piece>)
    requires flat != [] && flat[|flat| - 1].delimiter == [d] && IsDelimiter(d) && Scanned(EndWith(flat, []))
             && Scanned(more)
    ensures Scanned(flat + more) && Join(flat + more) == Join(flat) + Join(more)
    ensures NoInput(flat) && NoInput(more) ==> NoInput(flat + more)
  {
    EndWithTwice(flat, [], [d]);
    ScannedAppend(EndWith(flat, []), d, more);
    JoinAppend(flat, more);
    hide Scanned, EndWith, Join, IsInput;
  }

  /** What the first piece became, in front of what the others became. */
  lemma {:induction false} PartsAreScanned(ps: seq<Piece>, part: Part, rest: seq<Part>)
    requires Scanned(ps) && PartScanned(part, ps[0].delimiter)
    requires if |ps| == 1 then rest == [] else PartsScanned(rest)
    ensures PartsScanned([part] + rest)
  {
    var flat := FlatPart(part);
    FlatStep(part, rest);
    if |ps| == 1 {
      EndWithTwice(flat, [], ps[0].delimiter);
      EndWithTwice(flat, [], []);
      assert flat + [] == flat && RenderPart(part) + [] == RenderPart(part);
    } else {
      hide FlatPart, RenderPart, Join, EndWith, NoInput;
      assert ps[0].delimiter == [ps[0].delimiter[0]];
      InFront(flat, ps[0].delimiter[0], Flat(rest));
    }
  }

  predicate PartsScanned(parts: seq<Part>) {
    Scanned(Flat(parts)) && Join(Flat(parts)) == Render(parts) && NoInput(Flat(parts))
  }

  predicate PartScanned(part: Part, delimiter: Text) {
    var flat := FlatPart(part);
    flat != [] && flat[|flat| - 1].delimiter == delimiter && Scanned(EndWith(flat, []))
    && Join(flat) == RenderPart(part) && NoInput(flat)
  }

  /** The expansion's pieces are what a scan of the rendered text finds, and none is INPUT. */
  lemma {:induction false} FlatIsScanned(lib: Library, ps: seq<Piece>, stack: seq<File>, total: int)
    requires Scanned(ps) && Expand(lib, ps, stack, total).Ok?
    requires IncludedBalanced(lib, Expand(lib, ps, stack, total).value.parts)
    ensures PartsScanned(Expand(lib, ps, stack, total).value.parts)
    decreases lib.files.Keys - Members(stack), |ps|
  {
    ExpandStep(lib, ps, stack, total);
    var first := ExpandPiece(lib, ps[0], stack, total).value;
    hide PartsScanned, PartScanned, ExpandPiece, PartBalanced, Closed, Render, Flat, Join;
    PieceIsScanned(lib, ps[0], stack, total);
    if |ps| == 1 {
      PartsAreScanned(ps, first.0, []);
    } else {
      FlatIsScanned(lib, ps[1..], stack, first.1);
      PartsAreScanned(ps, first.0, Expand(lib, ps[1..], stack, first.1).value.parts);
    }
  }

  lemma FlatStep(p: Part, rest: seq<Part>)
    ensures Flat([p] + rest) == FlatPart(p) + Flat(rest) && Render([p] + rest) == RenderPart(p) + Render(rest)
    ensures Flat([]) == [] && Render([]) == []
  {
    assert ([p] + rest)[1..] == rest;
  }

  lemma {:induction false} PieceIsScanned(lib: Library, p: Piece, stack: seq<File>, total: int)
    requires Closed(p) && ExpandPiece(lib, p, stack, total).Ok?
    requires PartBalanced(lib, ExpandPiece(lib, p, stack, total).value.0)
    ensures PartScanned(ExpandPiece(lib, p, stack, total).value.0, p.delimiter)
    decreases lib.files.Keys - Members(stack), 0
  {
    var part := ExpandPiece(lib, p, stack, total).value.0;
    var flat := FlatPart(part);
    if !IsInput(p.statement) {
      assert EndWith(flat, []) == [Piece(p.statement, [])];
      JoinOne(p);
    } else {
      var f, inner, total' := IncludeStep(lib, p, stack, total);
      BodyQuotes(lib.files[f], None);
      BalancedPieces(Body(lib.files[f]));
      FlatIsScanned(lib, inner, stack + [f], total');
      IncludedIsScanned(part);
    }
  }

  lemma IncludedIsScanned(part: Part)
    requires part.Included? && PartsScanned(part.parts)
    ensures PartScanned(part, part.delimiter)
  {
    var inner, flat := Flat(part.parts), FlatPart(part);
    var opening := Piece([], [NEWLINE]);
    ScannedAppend(inner, NEWLINE, [Piece([], [])]);
    var tail := EndWith(inner, [NEWLINE]) + [Piece([], [])];
    assert EndWith(flat, []) == [opening] + tail;
    assert ([opening] + tail)[1..] == tail;
    IncludedJoins(part, inner);
    IncludedHasNoInput(part, inner);
  }

  lemma IncludedHasNoInput(part: Part, inner: seq<Piece>)
    requires part.Included? && inner == Flat(part.parts) && inner != [] && NoInput(inner)
    ensures NoInput(FlatPart(part))
  {
    var flat := FlatPart(part);
    forall i | 0 <= i < |flat| ensures !IsInput(flat[i].statement) {
      if 0 < i <= |inner| {
        assert flat[i].statement == inner[i - 1].statement;
      } else {
        assert flat[i].statement == [];
      }
    }
  }

  lemma IncludedJoins(part: Part, inner: seq<Piece>)
    requires part.Included? && inner == Flat(part.parts) && Scanned(inner)
    requires Join(inner) == Render(part.parts)
    ensures Join(FlatPart(part)) == RenderPart(part)
  {
    var ended := EndWith(inner, [NEWLINE]);
    var opening, closing := Piece([], [NEWLINE]), Piece([], part.delimiter);
    LastIsBare(inner);
    JoinEndWith(inner, [NEWLINE]);
    hide Scanned;
    hide EndWith;
    hide Join;
    JoinAppend([opening] + ended, [closing]);
    JoinAppend([opening], ended);
    JoinOne(opening);
    JoinOne(closing);
    assert [] + [NEWLINE] == [NEWLINE] && [] + part.delimiter == part.delimiter;
    Associative([NEWLINE], Render(part.parts), [NEWLINE]);
  }

  lemma JoinOne(p: Piece)
    ensures Join([p]) == p.statement + p.delimiter
  {
    assert [p][1..] == [];
  }

  lemma {:induction false} NothingToExpand(lib: Library, ps: seq<Piece>, stack: seq<File>, total: int)
    requires NoInput(ps)
    ensures Expand(lib, ps, stack, total) == Ok(Expansion(KeptAll(ps), total))
    ensures Render(KeptAll(ps)) == Join(ps)
    decreases |ps|
  {
    if ps != [] {
      NothingToExpand(lib, ps[1..], stack, total);
      assert KeptAll(ps)[1..] == KeptAll(ps[1..]);
      assert KeptAll(ps) == [Kept(ps[0])] + KeptAll(ps[1..]);
    }
  }

  /** The main result: with balanced quotes in the command and in the files it includes, the expansion
      is balanced, a scan finds in it exactly the kept statements and the files' own, none of them
      INPUT, and expanding it again, with any library, changes nothing. */
  lemma ExpansionIsFinal(lib: Library, command: Text, stack: seq<File>, total: int,
                         again: Library, stack': seq<File>, total': int)
    requires Balanced(command) && Expand(lib, Pieces(command), stack, total).Ok?
    requires IncludedBalanced(lib, Expand(lib, Pieces(command), stack, total).value.parts)
    ensures var text := Render(Expand(lib, Pieces(command), stack, total).value.parts);
            Balanced(text)
            && Pieces(text) == Flat(Expand(lib, Pieces(command), stack, total).value.parts)
            && NoInput(Pieces(text))
            && Expand(again, Pieces(text), stack', total') == Ok(Expansion(KeptAll(Pieces(text)), total'))
            && Render(KeptAll(Pieces(text))) == text
  {
    BalancedPieces(command);
    FlatIsScanned(lib, Pieces(command), stack, total);
    var flat := Flat(Expand(lib, Pieces(command), stack, total).value.parts);
    JoinScans(flat);
    NothingToExpand(again, flat, stack', total');
  }
}
