/** When an INPUT expansion succeeds, and what it answers when it does not (_command.py). */
module Includes {
  import opened Wrappers
  import opened Bytes
  import opened Command
  import opened Expansions

  // -- the INPUT statements in reading order -----------------------------------------------------

  /** One INPUT statement, and the files it stands in, from the outside in. */
  datatype Attempt = Attempt(statement: Text, ancestors: seq<File>)

  /** The INPUT statements of the whole include tree, each before those of its own file. */
  function Attempts(lib: Library, ps: seq<Piece>, stack: seq<File>): seq<Attempt>
    decreases lib.files.Keys - Members(stack), |ps|
  {
    if ps == [] then [] else PieceAttempts(lib, ps[0].statement, stack) + Attempts(lib, ps[1..], stack)
  }

  function PieceAttempts(lib: Library, statement: Text, stack: seq<File>): seq<Attempt>
    decreases lib.files.Keys - Members(stack), 0
  {
    if !IsInput(statement) then []
    else
      [Attempt(statement, stack)]
      + match lib.target(statement)
        case Err(_) => []
        case Ok(f) =>
          if f in lib.files && f !in stack then
            assert f in Members(stack + [f]) && f !in Members(stack);
            Attempts(lib, Pieces(Body(lib.files[f])), stack + [f])
          else []
  }

  function Size(lib: Library, a: Attempt): nat {
    match lib.target(a.statement)
    case Err(_) => 0
    case Ok(f) => if f in lib.files then |lib.files[f]| else 0
  }

  /** The bytes of the files of a number of statements. */
  function Spent(lib: Library, attempts: seq<Attempt>): nat {
    if attempts == [] then 0 else Spent(lib, attempts[..|attempts| - 1]) + Size(lib, attempts[|attempts| - 1])
  }

  /** The statement names a regular file without NUL bytes that is none of those it stands in, within
      the depth, and within the byte limit after what was spent before. */
  predicate Permitted(lib: Library, a: Attempt, spent: int) {
    match lib.target(a.statement)
    case Err(_) => false
    case Ok(f) =>
      f !in a.ancestors && |a.ancestors| < lib.depth && f in lib.files && spent + |lib.files[f]| <= lib.maxBytes
      && 0 !in lib.files[f]
  }

  /** The first requirement the statement misses, in the order of the checks. */
  predicate Misses(lib: Library, a: Attempt, spent: int, e: IncludeError) {
    match lib.target(a.statement)
    case Err(refusal) => e == refusal
    case Ok(f) =>
      if f in a.ancestors then e == Cycle
      else if |a.ancestors| >= lib.depth then e == TooDeep
      else if f !in lib.files then e == NotRegular
      else if spent + |lib.files[f]| > lib.maxBytes then e == TooLarge
      else 0 in lib.files[f] && e == NulByte
  }

  predicate PermittedBefore(lib: Library, attempts: seq<Attempt>, k: int, total: int) {
    forall j :: 0 <= j < k && j < |attempts| ==> Permitted(lib, attempts[j], total + Spent(lib, attempts[..j]))
  }

  /** The statement at k is the first that misses a requirement. */
  predicate FailsAt(lib: Library, attempts: seq<Attempt>, k: int, total: int, e: IncludeError) {
    0 <= k < |attempts| && PermittedBefore(lib, attempts, k, total)
    && Misses(lib, attempts[k], total + Spent(lib, attempts[..k]), e)
  }

  // -- going through them one by one ------------------------------------------------------------

  /** The total after all statements, or the first error. */
  function Outcome(lib: Library, attempts: seq<Attempt>, total: int): Result<int, IncludeError>
    decreases |attempts|
  {
    if attempts == [] then Ok(total)
    else
      var f :- Admit(lib, attempts[0].statement, attempts[0].ancestors, total);
      Outcome(lib, attempts[1..], total + |lib.files[f]|)
  }

  lemma {:induction false} OutcomeConcat(lib: Library, a: seq<Attempt>, b: seq<Attempt>, total: int)
    ensures Outcome(lib, a + b, total)
         == match Outcome(lib, a, total) case Err(e) => Err(e) case Ok(t) => Outcome(lib, b, t)
    decreases |a|
  {
    if a == [] {
      assert a + b == b;
    } else {
      assert (a + b)[1..] == a[1..] + b;
      var f := Admit(lib, a[0].statement, a[0].ancestors, total);
      if f.Ok? {
        OutcomeConcat(lib, a[1..], b, total + |lib.files[f.value]|);
      }
    }
  }

  function TotalOf(x: Result<Expansion, IncludeError>): Result<int, IncludeError> {
    match x case Err(e) => Err(e) case Ok(v) => Ok(v.total)
  }

  lemma {:induction false} ExpandGoesThrough(lib: Library, ps: seq<Piece>, stack: seq<File>, total: int)
    ensures TotalOf(Expand(lib, ps, stack, total)) == Outcome(lib, Attempts(lib, ps, stack), total)
    decreases lib.files.Keys - Members(stack), |ps|
  {
    if ps != [] {
      PieceGoesThrough(lib, ps[0], stack, total);
      OutcomeConcat(lib, PieceAttempts(lib, ps[0].statement, stack), Attempts(lib, ps[1..], stack), total);
      hide ExpandPiece, PieceAttempts, Outcome;
      var first := ExpandPiece(lib, ps[0], stack, total);
      if first.Ok? {
        ExpandGoesThrough(lib, ps[1..], stack, first.value.1);
      }
    }
  }

  lemma {:induction false} PieceGoesThrough(lib: Library, p: Piece, stack: seq<File>, total: int)
    ensures Outcome(lib, PieceAttempts(lib, p.statement, stack), total)
         == match ExpandPiece(lib, p, stack, total) case Err(e) => Err(e) case Ok(x) => Ok(x.1)
    decreases lib.files.Keys - Members(stack), 0
  {
    PieceStep(lib, p, stack, total);
    hide Outcome, PieceAttempts, ExpandPiece, Expand, Body, Pieces, IsInput, Attempts;
    if IsInput(p.statement) {
      FirstAttempt(lib, p.statement, stack, total);
      var f := Admit(lib, p.statement, stack, total);
      hide Admit;
      if f.Ok? {
        var inner := Pieces(Body(lib.files[f.value]));
        ExpandGoesThrough(lib, inner, stack + [f.value], total + |lib.files[f.value]|);
      }
    }
  }

  lemma PieceStep(lib: Library, p: Piece, stack: seq<File>, total: int)
    ensures !IsInput(p.statement) ==>
              Outcome(lib, PieceAttempts(lib, p.statement, stack), total) == Ok(total)
              && ExpandPiece(lib, p, stack, total) == Ok((Kept(p), total))
    ensures IsInput(p.statement) ==>
              var admitted, x := Admit(lib, p.statement, stack, total), ExpandPiece(lib, p, stack, total);
              (admitted.Err? ==> x == Err(admitted.error))
              && (admitted.Ok? ==>
                    var f := admitted.value;
                    var nested := Expand(lib, Pieces(Body(lib.files[f])), stack + [f], total + |lib.files[f]|);
                    (nested.Err? ==> x == Err(nested.error))
                    && (nested.Ok? ==> x == Ok((Included(f, nested.value.parts, p.delimiter), nested.value.total))))
  {
    hide Body, Pieces, IsInput, Expand, Admit;
  }

  lemma FirstAttempt(lib: Library, statement: Text, stack: seq<File>, total: int)
    requires IsInput(statement)
    ensures Outcome(lib, PieceAttempts(lib, statement, stack), total)
         == match Admit(lib, statement, stack, total)
            case Err(e) => Err(e)
            case Ok(f) => Outcome(lib, Attempts(lib, Pieces(Body(lib.files[f])), stack + [f]), total + |lib.files[f]|)
  {
    hide Attempts, Body, Pieces, IsInput;
    var all := PieceAttempts(lib, statement, stack);
    assert all[0] == Attempt(statement, stack);
    if Admit(lib, statement, stack, total).Ok? {
      var f := Admit(lib, statement, stack, total).value;
      assert all[1..] == Attempts(lib, Pieces(Body(lib.files[f])), stack + [f]);
    }
  }

  lemma AdmitIff(lib: Library, a: Attempt, spent: int)
    requires spent >= 0
    ensures var r := Admit(lib, a.statement, a.ancestors, spent);
            (r.Ok? <==> Permitted(lib, a, spent)) && (r.Ok? ==> |lib.files[r.value]| == Size(lib, a))
            && forall e :: r == Err(e) <==> Misses(lib, a, spent, e)
  {
  }

  lemma OneMore(lib: Library, attempts: seq<Attempt>, n: nat, total: int)
    requires n < |attempts|
    ensures Spent(lib, attempts[..n + 1]) == Spent(lib, attempts[..n]) + Size(lib, attempts[n])
    ensures Outcome(lib, attempts[..n + 1], total)
         == match Outcome(lib, attempts[..n], total)
            case Err(e) => Err(e)
            case Ok(t) =>
              match Admit(lib, attempts[n].statement, attempts[n].ancestors, t)
              case Err(e) => Err(e)
              case Ok(f) => Ok(t + |lib.files[f]|)
  {
    assert attempts[..n + 1] == attempts[..n] + [attempts[n]];
    assert (attempts[..n] + [attempts[n]])[..n] == attempts[..n];
    OutcomeConcat(lib, attempts[..n], [attempts[n]], total);
    assert [attempts[n]][1..] == [];
  }

  /** The first n statements: their total, or the error of the first that fails. */
  ghost predicate PrefixOutcome(lib: Library, attempts: seq<Attempt>, n: nat, total: int)
    requires n <= |attempts|
  {
    match Outcome(lib, attempts[..n], total)
    case Ok(t) => PermittedBefore(lib, attempts, n, total) && t == total + Spent(lib, attempts[..n])
    case Err(e) => exists k :: k < n && FailsAt(lib, attempts, k, total, e)
  }

  lemma NextOutcome(lib: Library, attempts: seq<Attempt>, n: nat, total: int)
    requires n < |attempts| && total >= 0 && PrefixOutcome(lib, attempts, n, total)
    ensures PrefixOutcome(lib, attempts, n + 1, total)
  {
    OneMore(lib, attempts, n, total);
    var before := Outcome(lib, attempts[..n], total);
    if before.Ok? {
      AdmitIff(lib, attempts[n], before.value);
      hide Outcome, Admit, Permitted, Misses, Size, Spent;
      var last := Admit(lib, attempts[n].statement, attempts[n].ancestors, before.value);
      if last.Err? {
        assert FailsAt(lib, attempts, n, total, last.error);
      }
    }
  }

  lemma {:induction false} OutcomeIs(lib: Library, attempts: seq<Attempt>, n: nat, total: int)
    requires n <= |attempts| && total >= 0
    ensures PrefixOutcome(lib, attempts, n, total)
    decreases n
  {
    if n > 0 {
      OutcomeIs(lib, attempts, n - 1, total);
      hide PrefixOutcome;
      NextOutcome(lib, attempts, n - 1, total);
    }
  }

  lemma OnlyOneFails(lib: Library, attempts: seq<Attempt>, j: int, k: int, total: int, d: IncludeError, e: IncludeError)
    requires FailsAt(lib, attempts, j, total, d) && FailsAt(lib, attempts, k, total, e)
    ensures j == k && d == e
  {
    FailingIsNotPermitted(lib, attempts, j, total, d);
    FailingIsNotPermitted(lib, attempts, k, total, e);
    hide Permitted, Spent;
  }

  lemma FailingIsNotPermitted(lib: Library, attempts: seq<Attempt>, k: int, total: int, e: IncludeError)
    requires FailsAt(lib, attempts, k, total, e)
    ensures 0 <= k < |attempts| && !Permitted(lib, attempts[k], total + Spent(lib, attempts[..k]))
  {
  }

  /** An expansion succeeds exactly when every INPUT statement of its include tree names a regular file
      without NUL bytes that it does not stand in, within the depth and the byte limit. */
  lemma ExpandsIff(lib: Library, command: Text)
    ensures var attempts := Attempts(lib, Pieces(command), []);
            Expand(lib, Pieces(command), [], 0).Ok?
            <==> forall k :: 0 <= k < |attempts| ==> Permitted(lib, attempts[k], Spent(lib, attempts[..k]))
  {
    var attempts := Attempts(lib, Pieces(command), []);
    ExpandGoesThrough(lib, Pieces(command), [], 0);
    OutcomeIs(lib, attempts, |attempts|, 0);
    assert attempts[..|attempts|] == attempts;
    hide Expand, Attempts, Outcome, Permitted;
    if e: IncludeError, k :| FailsAt(lib, attempts, k, 0, e) {
      FailingIsNotPermitted(lib, attempts, k, 0, e);
    }
  }

  /** The error is what the first failing statement, in reading order, misses first. */
  lemma ExpandFailsIff(lib: Library, command: Text, e: IncludeError)
    ensures Expand(lib, Pieces(command), [], 0) == Err(e)
       <==> exists k :: FailsAt(lib, Attempts(lib, Pieces(command), []), k, 0, e)
  {
    var attempts := Attempts(lib, Pieces(command), []);
    ExpandGoesThrough(lib, Pieces(command), [], 0);
    OutcomeIs(lib, attempts, |attempts|, 0);
    assert attempts[..|attempts|] == attempts;
    hide Expand, Attempts, Outcome, Permitted, FailsAt;
    var outcome := Outcome(lib, attempts, 0);
    if k :| FailsAt(lib, attempts, k, 0, e) {
      FailingIsNotPermitted(lib, attempts, k, 0, e);
      if outcome.Err? {
        var j :| j < |attempts| && FailsAt(lib, attempts, j, 0, outcome.error);
        OnlyOneFails(lib, attempts, j, k, 0, outcome.error, e);
      }
    }
  }

  predicate NamesAncestor(lib: Library, a: Attempt) {
    lib.target(a.statement).Ok? && lib.target(a.statement).value in a.ancestors
  }

  /** A cycle is answered exactly when the first failing statement names a file it stands in. */
  lemma CycleIff(lib: Library, command: Text)
    requires forall s :: lib.target(s) != Err(Cycle)
    ensures var attempts := Attempts(lib, Pieces(command), []);
            Expand(lib, Pieces(command), [], 0) == Err(Cycle)
            <==> exists k ::
                   0 <= k < |attempts| && PermittedBefore(lib, attempts, k, 0) && NamesAncestor(lib, attempts[k])
  {
    ExpandFailsIff(lib, command, Cycle);
    var attempts := Attempts(lib, Pieces(command), []);
    hide Expand, Attempts, PermittedBefore;
    assert forall k ::
      (FailsAt(lib, attempts, k, 0, Cycle)
       <==> 0 <= k < |attempts| && PermittedBefore(lib, attempts, k, 0) && NamesAncestor(lib, attempts[k]));
  }

  // -- what a file contributes --------------------------------------------------------------------

  /** Every line ending as one newline. */
  function Normalized(s: Text): Text
    decreases |s|
  {
    if s == [] then []
    else if s[0] == RETURN then
      [NEWLINE] + Normalized(if |s| > 1 && s[1] == NEWLINE then s[2..] else s[1..])
    else [s[0]] + Normalized(s[1..])
  }

  function WithoutFinal(s: Text): Text {
    if s != [] && s[|s| - 1] == NEWLINE then s[..|s| - 1] else s
  }

  predicate Plain(line: Text) {
    RETURN !in line && NEWLINE !in line
  }

  lemma {:induction false} PlainToLineEnd(s: Text)
    ensures Plain(s[..LineEnd(s)])
    decreases |s|
  {
    if s != [] && s[0] != NEWLINE && s[0] != RETURN {
      PlainToLineEnd(s[1..]);
      assert s[..LineEnd(s)] == [s[0]] + s[1..][..LineEnd(s[1..])];
    }
  }

  lemma {:induction false} PlainStays(line: Text, rest: Text)
    requires Plain(line)
    ensures Normalized(line + rest) == line + Normalized(rest)
    decreases |line|
  {
    if line == [] {
      assert line + rest == rest;
    } else {
      assert (line + rest)[1..] == line[1..] + rest;
      PlainStays(line[1..], rest);
      assert [line[0]] + (line[1..] + Normalized(rest)) == line + Normalized(rest);
    }
  }

  lemma EndingBecomesNewline(s: Text, e: nat)
    requires e < |s| && (s[e] == NEWLINE || s[e] == RETURN)
    ensures Normalized(s[e..]) == [NEWLINE] + Normalized(s[e + EndingLength(s, e)..])
  {
    var here := s[e..];
    assert here[1..] == s[e + 1..];
    assert |here| > 1 ==> here[2..] == s[e + 2..] && here[1] == s[e + 1];
  }

  lemma SplitAt(s: Text, e: nat)
    requires e <= |s|
    ensures s == s[..e] + s[e..]
  {
  }

  lemma NormalizedLine(s: Text)
    ensures var e := LineEnd(s);
            if e == |s| then Normalized(s) == s && NEWLINE !in s
            else Normalized(s) == s[..e] + ([NEWLINE] + Normalized(s[e + EndingLength(s, e)..]))
  {
    var e := LineEnd(s);
    PlainToLineEnd(s);
    LineEndIs(s);
    if e < |s| {
      hide *;
      EndingBecomesNewline(s, e);
      SplitAt(s, e);
      PlainStays(s[..e], s[e..]);
    } else {
      assert s[..e] == s && s + [] == s;
      PlainStays(s, []);
      NothingNormalized();
    }
  }

  lemma NothingNormalized()
    ensures Normalized([]) == []
  {
  }

  lemma NormalizedNotEmpty(s: Text)
    ensures s != [] ==> Normalized(s) != []
  {
  }

  lemma WithoutFinalLater(line: Text, tail: Text)
    ensures WithoutFinal(line + [NEWLINE] + tail) == if tail == [] then line else line + [NEWLINE] + WithoutFinal(tail)
  {
    var whole := line + [NEWLINE] + tail;
    assert tail == [] ==> whole[..|whole| - 1] == line;
    assert tail != [] ==> whole[..|whole| - 1] == line + [NEWLINE] + tail[..|tail| - 1];
  }

  lemma OneLine(content: Text)
    requires LineEnd(content) == |content|
    ensures Body(content) == content
  {
    assert content != [] ==> Lines(content) == [content];
  }

  /** An included file contributes its bytes with every line ending as one newline, the last one dropped. */
  lemma {:induction false} BodyIsNormalized(content: Text)
    ensures Body(content) == WithoutFinal(Normalized(content))
    decreases |content|
  {
    var e := LineEnd(content);
    if e == |content| {
      NormalizedLine(content);
      OneLine(content);
      hide Body, Normalized, LineEnd;
    } else {
      var rest := content[e + EndingLength(content, e)..];
      BodyIsNormalized(rest);
      BodyLater(content, rest);
    }
  }

  lemma BodyLater(content: Text, rest: Text)
    requires LineEnd(content) < |content|
    requires rest == content[LineEnd(content) + EndingLength(content, LineEnd(content))..]
    requires Body(rest) == WithoutFinal(Normalized(rest))
    ensures Body(content) == WithoutFinal(Normalized(content))
  {
    hide *;
    var line := content[..LineEnd(content)];
    NormalizedLine(content);
    BodyStep(content, rest);
    NormalizedNotEmpty(rest);
    NothingNormalized();
    WithoutFinalLater(line, Normalized(rest));
    assert line + ([NEWLINE] + Normalized(rest)) == line + [NEWLINE] + Normalized(rest);
  }

  lemma {:induction false} NormalizedHasNoReturn(s: Text)
    ensures RETURN !in Normalized(s)
    decreases |s|
  {
    if s != [] {
      NormalizedHasNoReturn(if s[0] == RETURN && |s| > 1 && s[1] == NEWLINE then s[2..] else s[1..]);
    }
  }

  lemma BodyHasNoReturn(content: Text)
    ensures RETURN !in Body(content)
  {
    BodyIsNormalized(content);
    NormalizedHasNoReturn(content);
  }

  // -- what ends a statement, and what is an INPUT statement ---------------------------------------------

  lemma {:induction false} QuotedEnd(inner: Text, rest: Text, q: Byte)
    requires (q == DOUBLE_QUOTE || q == SINGLE_QUOTE) && q !in inner
    ensures StatementEnd(inner + [q] + rest, Some(q)) == |inner| + 1 + StatementEnd(rest, None)
    ensures StatementEnd(inner, Some(q)) == |inner|
    decreases |inner|
  {
    var s := inner + [q] + rest;
    if inner == [] {
      assert s[1..] == rest;
    } else {
      QuotedEnd(inner[1..], rest, q);
      assert s[1..] == inner[1..] + [q] + rest;
    }
  }

  /** A statement runs over quoted strings of either kind whatever they hold, to the first delimiter
      outside them; a quote that is never closed takes the rest. */
  lemma QuotesHideDelimiters(s: Text, inner: Text, rest: Text, q: Byte)
    requires q in {34 as Byte, 39} && q !in inner
    ensures StatementEnd([q] + inner + [q] + rest, None) == |inner| + 2 + StatementEnd(rest, None)
    ensures StatementEnd([q] + inner, None) == |inner| + 1
    ensures s != [] && s[0] in {59 as Byte, 10} ==> StatementEnd(s, None) == 0
    ensures s != [] && s[0] !in {59 as Byte, 10, 34, 39} ==> StatementEnd(s, None) == 1 + StatementEnd(s[1..], None)
  {
    QuotedEnd(inner, rest, q);
    assert ([q] + inner + [q] + rest)[1..] == inner + [q] + rest;
    assert ([q] + inner)[1..] == inner;
  }

  /** Blanks, five letters, and what follows. */
  predicate InputLayout(s: Text, lead: nat) {
    lead + 6 <= |s| && (forall i :: 0 <= i < lead ==> s[i] in {32 as Byte, 9}) && s[lead + 5] in {32 as Byte, 9}
    && Upper(s[lead..lead + 5]) == [73, 78, 80, 85, 84]
  }

  lemma {:induction false} StartsIff(s: Text)
    ensures StartsWithInput(s) <==> exists lead: nat :: InputLayout(s, lead)
    decreases |s|
  {
    if s != [] && IsBlank(s[0]) {
      StartsIff(s[1..]);
      if lead: nat :| InputLayout(s[1..], lead) {
        assert s[1..][lead..lead + 5] == s[lead + 1..lead + 6];
        assert InputLayout(s, lead + 1);
      }
      if lead: nat :| InputLayout(s, lead) {
        BlankIsNoLetter(s);
        assert s[1..][lead - 1..lead + 4] == s[lead..lead + 5];
        assert InputLayout(s[1..], lead - 1);
      }
    } else {
      if StartsWithInput(s) {
        assert s[0..5] == s[..5];
        assert InputLayout(s, 0);
      }
      if lead: nat :| InputLayout(s, lead) {
        assert lead == 0 && s[0..5] == s[..5];
      }
    }
  }

  lemma BlankIsNoLetter(s: Text)
    requires |s| >= 5 && IsBlank(s[0])
    ensures Upper(s[0..5]) != [73, 78, 80, 85, 84]
  {
    assert Upper(s[0..5])[0] != 73;
  }

  /** An INPUT statement: blanks, the word in any case, a blank, anything, and all on one line. */
  lemma InputIff(s: Text)
    ensures IsInput(s) <==> 10 !in s && exists lead: nat :: InputLayout(s, lead)
  {
    StartsIff(s);
  }
}
