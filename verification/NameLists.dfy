/** The text of a name-list: its printer and its strict parser (_data.py, bridge/_values.py). */
module NameLists {
  import opened Wrappers
  import opened Bytes

  const OPEN: Byte := 123
  const CLOSE: Byte := 125
  const COMMA: Byte := 44

  predicate IsBlank(b: Byte) {
    b == 32 || b == 9
  }

  predicate MemberByte(b: Byte) {
    0x20 < b < 0x7F && b != OPEN && b != CLOSE && b != COMMA
  }

  predicate ValidMember(m: Text) {
    m != [] && forall i :: 0 <= i < |m| ==> MemberByte(m[i])
  }

  predicate BlankBetween(s: Text, lo: nat, hi: nat)
    requires hi <= |s|
  {
    forall i :: lo <= i < hi ==> IsBlank(s[i])
  }

  predicate AllBlank(s: Text) {
    BlankBetween(s, 0, |s|)
  }

  function LeftEdge(s: Text, i: nat): (r: nat)
    requires i <= |s|
    ensures i <= r <= |s| && BlankBetween(s, i, r) && (r < |s| ==> !IsBlank(s[r]))
    decreases |s| - i
  {
    if i < |s| && IsBlank(s[i]) then LeftEdge(s, i + 1) else i
  }

  function RightEdge(s: Text, lo: nat, j: nat): (r: nat)
    requires lo <= j <= |s|
    ensures lo <= r <= j && BlankBetween(s, r, j) && (r > lo ==> !IsBlank(s[r - 1]))
    decreases j
  {
    if j > lo && IsBlank(s[j - 1]) then RightEdge(s, lo, j - 1) else j
  }

  /** The bytes without the blanks at either end. */
  function Strip(s: Text): Text {
    var i := LeftEdge(s, 0);
    s[i..RightEdge(s, i, |s|)]
  }

  function FirstComma(s: Text): (k: nat)
    ensures k <= |s| && (forall i :: 0 <= i < k ==> s[i] != COMMA) && (k < |s| ==> s[k] == COMMA)
  {
    if s == [] || s[0] == COMMA then 0 else 1 + FirstComma(s[1..])
  }

  function SplitCommas(s: Text): (r: seq<Text>)
    ensures r != []
  {
    var k := FirstComma(s);
    if k == |s| then [s] else [s[..k]] + SplitCommas(s[k + 1..])
  }

  /** The stripped parts, or None as soon as one of them is not a valid member. */
  function StripAll(parts: seq<Text>): Option<seq<Text>> {
    if parts == [] then Some([])
    else if !ValidMember(Strip(parts[0])) then None
    else match StripAll(parts[1..])
      case None => None
      case Some(rest) => Some([Strip(parts[0])] + rest)
  }

  predicate Braced(text: Text) {
    |text| >= 2 && text[0] == OPEN && text[|text| - 1] == CLOSE
  }

  function Members(text: Text): Option<seq<Text>> {
    if !Braced(text) then None
    else
      var body := text[1..|text| - 1];
      if Strip(body) == [] then Some([]) else StripAll(SplitCommas(body))
  }

  /** What the parse comes to when `done` members precede the rest. */
  function After(done: seq<Text>, rest: Option<seq<Text>>): Option<seq<Text>> {
    match rest
    case None => None
    case Some(more) => Some(done + more)
  }

  lemma AfterEnds(done: seq<Text>, rest: Option<seq<Text>>)
    ensures After([], rest) == rest
    ensures After(done, Some([])) == Some(done)
  {
    assert done + [] == done;
    if rest.Some? {
      assert [] + rest.value == rest.value;
    }
  }

  lemma AfterStep(done: seq<Text>, parts: seq<Text>)
    requires parts != [] && ValidMember(Strip(parts[0]))
    ensures After(done, StripAll(parts)) == After(done + [Strip(parts[0])], StripAll(parts[1..]))
  {
    match StripAll(parts[1..])
    case None =>
    case Some(more) => assert done + ([Strip(parts[0])] + more) == done + [Strip(parts[0])] + more;
  }

  /** The parser as the source runs it: part by part, stopping at the first bad one. */
  method NamelistMembers(value: Text) returns (r: Option<seq<Text>>)
    ensures r == Members(value)
  {
    if !Braced(value) {
      return None;
    }
    var body := value[1..|value| - 1];
    if Strip(body) == [] {
      return Some([]);
    }
    var parts := SplitCommas(body);
    var members: seq<Text> := [];
    var i := 0;
    assert parts[0..] == parts;
    AfterEnds([], StripAll(parts));
    while i < |parts|
      invariant 0 <= i <= |parts|
      invariant StripAll(parts) == After(members, StripAll(parts[i..]))
    {
      var member := Strip(parts[i]);
      assert parts[i..][1..] == parts[i + 1..];
      if member == [] {
        return None;
      }
      var k := 0;
      while k < |member|
        invariant 0 <= k <= |member|
        invariant forall j :: 0 <= j < k ==> MemberByte(member[j])
      {
        if !MemberByte(member[k]) {
          return None;
        }
        k := k + 1;
      }
      AfterStep(members, parts[i..]);
      members := members + [member];
      i := i + 1;
    }
    AfterEnds(members, None);
    assert parts[i..] == [];
    return Some(members);
  }

  // -- the grammar, stated without the parser ----------------------------------

  /** `part` is `m` with any blanks before and after it. */
  ghost predicate Padded(part: Text, m: Text) {
    exists i: nat, j: nat ::
      i <= j <= |part| && BlankBetween(part, 0, i) && part[i..j] == m && BlankBetween(part, j, |part|)
  }

  /** `body` lays out the members in order, separated by commas, with optional blanks. */
  ghost predicate LaysOut(body: Text, members: seq<Text>) {
    if members == [] then AllBlank(body)
    else if |members| == 1 then Padded(body, members[0])
    else exists k: nat :: k < |body| && body[k] == COMMA && Padded(body[..k], members[0])
                          && LaysOut(body[k + 1..], members[1..])
  }

  ghost predicate IsLayout(text: Text, members: seq<Text>) {
    Braced(text) && LaysOut(text[1..|text| - 1], members)
  }

  function JoinCommas(members: seq<Text>): Text {
    if members == [] then []
    else if |members| == 1 then members[0]
    else members[0] + [COMMA] + JoinCommas(members[1..])
  }

  function Print(members: seq<Text>): Text {
    [OPEN] + JoinCommas(members) + [CLOSE]
  }

  // -- stripping ----------------------------------------------------------------

  lemma StripPads(part: Text)
    ensures Padded(part, Strip(part))
    ensures Strip(part) == [] <==> AllBlank(part)
  {
    var i := LeftEdge(part, 0);
    var j := RightEdge(part, i, |part|);
    assert part[i..j] == Strip(part);
  }

  lemma LeftEdgeIs(s: Text, i: nat)
    requires i < |s| && BlankBetween(s, 0, i) && !IsBlank(s[i])
    ensures LeftEdge(s, 0) == i
  {
    var r := LeftEdge(s, 0);
    assert r < |s|;
    assert IsBlank(s[r]) || r >= i;
  }

  lemma RightEdgeIs(s: Text, lo: nat, j: nat)
    requires lo < j <= |s| && BlankBetween(s, j, |s|) && !IsBlank(s[j - 1])
    ensures RightEdge(s, lo, |s|) == j
  {
    var r := RightEdge(s, lo, |s|);
    assert r > lo;
    assert IsBlank(s[r - 1]) || r <= j;
  }

  /** Blanks around a member are exactly what stripping removes. */
  lemma PaddedStrips(part: Text, m: Text)
    requires Padded(part, m) && ValidMember(m)
    ensures Strip(part) == m
    ensures forall x :: 0 <= x < |part| ==> part[x] != COMMA
  {
    var i: nat, j: nat :| i <= j <= |part| && BlankBetween(part, 0, i) && part[i..j] == m
                          && BlankBetween(part, j, |part|);
    assert forall x :: i <= x < j ==> part[x] == m[x - i] && MemberByte(part[x]);
    LeftEdgeIs(part, i);
    RightEdgeIs(part, i, j);
  }

  lemma FirstCommaIs(s: Text, k: nat)
    requires k <= |s| && (forall i :: 0 <= i < k ==> s[i] != COMMA) && (k < |s| ==> s[k] == COMMA)
    ensures FirstComma(s) == k
  {
  }

  // -- both directions ----------------------------------------------------------

  lemma {:induction false} PartsAreLayout(body: Text)
    requires StripAll(SplitCommas(body)).Some?
    ensures var ms := StripAll(SplitCommas(body)).value;
            ms != [] && LaysOut(body, ms) && forall m :: m in ms ==> ValidMember(m)
    decreases |body|
  {
    var k := FirstComma(body);
    if k == |body| {
      StripPads(body);
      assert SplitCommas(body)[1..] == [];
    } else {
      StripPads(body[..k]);
      var parts := SplitCommas(body);
      assert parts[1..] == SplitCommas(body[k + 1..]);
      PartsAreLayout(body[k + 1..]);
      var ms := StripAll(parts).value;
      assert ms[1..] == StripAll(parts[1..]).value;
    }
  }

  lemma {:induction false} LayoutHasParts(body: Text, members: seq<Text>)
    requires members != [] && LaysOut(body, members)
    requires forall m :: m in members ==> ValidMember(m)
    ensures StripAll(SplitCommas(body)) == Some(members) && !AllBlank(body)
    decreases |members|
  {
    if |members| == 1 {
      PaddedStrips(body, members[0]);
      StripPads(body);
      FirstCommaIs(body, |body|);
      assert SplitCommas(body)[1..] == [];
      assert members == [members[0]] + [];
    } else {
      var k: nat :| k < |body| && body[k] == COMMA && Padded(body[..k], members[0])
                    && LaysOut(body[k + 1..], members[1..]);
      assert forall m :: m in members[1..] ==> m in members;
      LayoutHasParts(body[k + 1..], members[1..]);
      PrependPart(body, k, members);
    }
  }

  lemma PrependPart(body: Text, k: nat, members: seq<Text>)
    requires k < |body| && body[k] == COMMA && members != []
    requires ValidMember(members[0]) && Padded(body[..k], members[0])
    requires StripAll(SplitCommas(body[k + 1..])) == Some(members[1..])
    ensures StripAll(SplitCommas(body)) == Some(members) && !AllBlank(body)
  {
    PaddedStrips(body[..k], members[0]);
    assert FirstComma(body) == k by {
      assert forall i :: 0 <= i < k ==> body[i] == body[..k][i];
      FirstCommaIs(body, k);
    }
    hide Strip;
    hide FirstComma;
    hide ValidMember;
    assert SplitCommas(body)[1..] == SplitCommas(body[k + 1..]);
    assert members == [members[0]] + members[1..];
    assert !IsBlank(body[k]);
  }

  /** The parser accepts exactly the layouts of lists of valid members, and returns that list. */
  lemma ParserIsGrammar(text: Text, members: seq<Text>)
    ensures Members(text) == Some(members)
       <==> IsLayout(text, members) && forall m :: m in members ==> ValidMember(m)
  {
    if Braced(text) {
      var body := text[1..|text| - 1];
      StripPads(body);
      if !AllBlank(body) && StripAll(SplitCommas(body)).Some? {
        PartsAreLayout(body);
      }
      if members != [] && LaysOut(body, members) && forall m :: m in members ==> ValidMember(m) {
        LayoutHasParts(body, members);
      }
    }
  }

  lemma {:induction false} JoinLaysOut(members: seq<Text>)
    ensures LaysOut(JoinCommas(members), members)
    decreases |members|
  {
    if |members| == 1 {
      MemberIsPadded(members[0]);
    } else if |members| > 1 {
      var body, k := JoinCommas(members), |members[0]|;
      JoinLaysOut(members[1..]);
      MemberIsPadded(members[0]);
      assert body[..k] == members[0] && body[k] == COMMA;
      assert body[k + 1..] == JoinCommas(members[1..]);
    }
  }

  lemma MemberIsPadded(m: Text)
    ensures Padded(m, m)
  {
    assert m[0..|m|] == m;
  }

  /** Printing then parsing returns the members in order. */
  lemma PrintParses(members: seq<Text>)
    requires forall m :: m in members ==> ValidMember(m)
    ensures Members(Print(members)) == Some(members)
  {
    JoinLaysOut(members);
    assert Print(members)[1..|Print(members)| - 1] == JoinCommas(members);
    ParserIsGrammar(Print(members), members);
  }

  /** An accepted text and the printed form of what it means are read alike. */
  lemma AcceptedTextNormalizes(text: Text)
    requires Members(text).Some?
    ensures Members(Print(Members(text).value)) == Members(text)
  {
    ParserIsGrammar(text, Members(text).value);
    PrintParses(Members(text).value);
  }

  function UpperAll(members: seq<Text>): (r: seq<Text>)
    ensures |r| == |members| && forall i :: 0 <= i < |r| ==> r[i] == Upper(members[i])
  {
    seq(|members|, i requires 0 <= i < |members| => Upper(members[i]))
  }

  lemma {:induction false} UpperJoin(members: seq<Text>)
    ensures Upper(JoinCommas(members)) == JoinCommas(UpperAll(members))
    decreases |members|
  {
    if |members| > 1 {
      UpperJoin(members[1..]);
      assert UpperAll(members)[1..] == UpperAll(members[1..]);
      UpperConcat(members[0] + [COMMA], JoinCommas(members[1..]));
      UpperConcat(members[0], [COMMA]);
      assert Upper([COMMA]) == [COMMA];
    }
  }

  lemma UpperConcat(a: Text, b: Text)
    ensures Upper(a + b) == Upper(a) + Upper(b)
  {
  }

  /** A written name-list is upper-cased as text; read back, its members are upper-cased. */
  lemma UpperPrintParses(members: seq<Text>)
    requires forall m :: m in members ==> ValidMember(m)
    ensures Members(Upper(Print(members))) == Some(UpperAll(members))
  {
    UpperJoin(members);
    UpperConcat([OPEN] + JoinCommas(members), [CLOSE]);
    UpperConcat([OPEN], JoinCommas(members));
    assert Upper([OPEN]) == [OPEN] && Upper([CLOSE]) == [CLOSE];
    forall m | m in UpperAll(members) ensures ValidMember(m) {
      var i :| 0 <= i < |members| && m == Upper(members[i]);
      assert members[i] in members;
    }
    PrintParses(UpperAll(members));
  }
}
