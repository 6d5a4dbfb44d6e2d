/** Edge conditions: the small expression language that routes a workflow. */
module Conditions {
  import opened Wrappers
  import opened JsonValues
  import opened Text

  type State = map<string, Json>

  /** How the platform prints JSON numbers and reads float literals. */
  datatype Numerals = Numerals(show: Num -> string, parse: string -> Option<real>)

  /** The text a comparison sees for a value; lists, objects and null have none. */
  function Shown(lib: Numerals, v: Json): Option<string> {
    match v
    case String(s) => Some(s)
    case Number(n) => Some(lib.show(n))
    case Bool(b) => Some(if b then "true" else "false")
    case _ => None
  }

  predicate TextIs(lib: Numerals, state: State, key: string, val: string) {
    key in state && Shown(lib, state[key]) == Some(val)
  }

  predicate TextIsNot(lib: Numerals, state: State, key: string, val: string) {
    if key !in state then true
    else match Shown(lib, state[key])
      case Some(t) => t != val
      case None => true
  }

  function AsNumber(v: Option<Json>): Option<real> {
    if v.Some? && v.value.Number? then Some(NumValue(v.value.n)) else None
  }

  predicate Truthy(state: State, key: string) {
    key in state && state[key] != Null && state[key] != Bool(false)
  }

  function Literal(raw: string): string {
    TrimMatches(Trim(raw), '"')
  }

  predicate EvaluateCondition(lib: Numerals, condition: string, state: State) {
    var c := Trim(condition);
    match SplitOnce(c, "==")
    case Some((key, val)) => TextIs(lib, state, Trim(key), Literal(val))
    case None =>
      match SplitOnce(c, "!=")
      case Some((key, val)) => TextIsNot(lib, state, Trim(key), Literal(val))
      case None => EvaluateOrder(lib, c, state)
  }

  /** `key > number`, then `key < number`, then a truthiness test of the whole text. */
  predicate EvaluateOrder(lib: Numerals, c: string, state: State) {
    var more := SplitOnce(c, ">");
    if more.Some? && lib.parse(Trim(more.value.1)).Some? then
      var n := AsNumber(Get(state, Trim(more.value.0)));
      n.Some? && n.value > lib.parse(Trim(more.value.1)).value
    else
      var less := SplitOnce(c, "<");
      if less.Some? && lib.parse(Trim(less.value.1)).Some? then
        var n := AsNumber(Get(state, Trim(less.value.0)));
        n.Some? && n.value < lib.parse(Trim(less.value.1)).value
      else
        Truthy(state, c)
  }

  // ── What the comparison forms mean ──────────────────────────────

  const EQ := "=="
  const NE := "!="
  const GT := ">"
  const LT := "<"

  /** The condition text `k op v`. */
  function Compare(k: string, op: string, v: string): string { k + " " + op + " " + v }

  predicate Solid(pat: string) {
    pat != [] && forall j :: 0 <= j < |pat| ==> !IsSpace(pat[j])
  }

  /** Blank margins cannot reach into an operator. */
  lemma OperatorInSpan(s: string, lo: nat, hi: nat, pat: string, i: nat)
    requires Solid(pat)
    requires OccursAt(s, pat, i) && lo <= hi <= |s| && AllSpace(s[..lo]) && AllSpace(s[hi..])
    ensures lo <= i && i + |pat| <= hi
  {
    var last := |pat| - 1;
    assert s[i + 0] == pat[0] && s[i + last] == pat[last];
  }

  /** Trimming the whole condition first does not change what the operator separates. */
  lemma SplitAfterTrim(s: string, pat: string, i: nat)
    requires Solid(pat) && FirstAt(s, pat, i)
    ensures SplitOnce(Trim(s), pat).Some?
    ensures Trim(SplitOnce(Trim(s), pat).value.0) == Trim(s[..i])
    ensures Trim(SplitOnce(Trim(s), pat).value.1) == Trim(s[i + |pat|..])
  {
    var lo, hi := TrimIsSpan(s);
    OperatorInSpan(s, lo, hi, pat, i);
    FirstInSpan(s, lo, hi, pat, i);
    TrimInside(s, lo, hi, i, i + |pat|);
    assert s[lo..hi][..i - lo] == s[lo..i];
  }

  /** Trimming neither removes nor creates an operator. */
  lemma TrimKeeps(s: string, pat: string)
    requires Solid(pat)
    ensures Contains(Trim(s), pat) <==> Contains(s, pat)
    ensures SplitOnce(Trim(s), pat).Some? <==> Contains(s, pat)
  {
    var lo, hi := TrimIsSpan(s);
    var inner, outer := FindFrom(Trim(s), pat, 0), FindFrom(s, pat, 0);
    if inner.Some? {
      OccursInSpan(s, lo, hi, pat, inner.value);
    }
    if outer.Some? {
      OperatorInSpan(s, lo, hi, pat, outer.value);
      FirstInSpan(s, lo, hi, pat, outer.value);
    }
  }

  /** The pieces of `k op v`. */
  lemma Pieces(k: string, op: string, v: string)
    ensures var s, a, b := Compare(k, op, v), |k| + 1, |k| + |op| + 2;
            && |s| == b + |v| && s[0..|k|] == k && s[a..b - 1] == op && s[b..|s|] == v
            && s[|k|] == ' ' && s[b - 1] == ' '
  {
  }

  /** An operator in one of the pieces is one in the whole. */
  lemma OccursInPiece(k: string, op: string, v: string, pat: string, i: int)
    requires OccursAt(k, pat, i) || OccursAt(op, pat, i - |k| - 1) || OccursAt(v, pat, i - |k| - |op| - 2)
    ensures OccursAt(Compare(k, op, v), pat, i)
  {
    var s, a, b := Compare(k, op, v), |k| + 1, |k| + |op| + 2;
    Pieces(k, op, v);
    if OccursAt(k, pat, i) {
      OccursInSpan(s, 0, |k|, pat, i);
    } else if OccursAt(op, pat, i - a) {
      OccursInSpan(s, a, b - 1, pat, i - a);
    } else {
      OccursInSpan(s, b, |s|, pat, i - b);
    }
  }

  /** An operator in `k op v` lies in `k`, in the separator, or in `v`. */
  lemma WhereOccurs(k: string, op: string, v: string, pat: string, i: int)
    requires Solid(pat)
    ensures OccursAt(Compare(k, op, v), pat, i)
            <==> OccursAt(k, pat, i) || OccursAt(op, pat, i - |k| - 1) || OccursAt(v, pat, i - |k| - |op| - 2)
  {
    var s, a, b := Compare(k, op, v), |k| + 1, |k| + |op| + 2;
    if OccursAt(k, pat, i) || OccursAt(op, pat, i - a) || OccursAt(v, pat, i - b) {
      OccursInPiece(k, op, v, pat, i);
    }
    if OccursAt(s, pat, i) {
      Pieces(k, op, v);
      NotAcross(s, pat, i, |k|);
      NotAcross(s, pat, i, b - 1);
      if i > b - 1 {
        SpanOccurs(s, b, |s|, pat, i);
      } else if i > |k| {
        SpanOccurs(s, a, b - 1, pat, i);
      } else {
        SpanOccurs(s, 0, |k|, pat, i);
      }
    }
  }

  lemma SolidInside(s: string, pat: string, i: nat, p: nat)
    requires Solid(pat) && OccursAt(s, pat, i) && i <= p < i + |pat|
    ensures !IsSpace(s[p])
  {
    assert s[i + (p - i)] == pat[p - i];
  }

  /** An operator does not straddle a blank. */
  lemma NotAcross(s: string, pat: string, i: nat, p: nat)
    requires Solid(pat) && OccursAt(s, pat, i) && p < |s| && IsSpace(s[p])
    ensures p < i || i + |pat| <= p
  {
    if i <= p < i + |pat| {
      SolidInside(s, pat, i, p);
    }
  }

  lemma ContainsCompare(k: string, op: string, v: string, pat: string)
    requires Solid(pat)
    ensures Contains(Compare(k, op, v), pat) <==> Contains(k, pat) || Contains(op, pat) || Contains(v, pat)
  {
    forall i: int
      ensures OccursAt(Compare(k, op, v), pat, i)
              <==> OccursAt(k, pat, i) || OccursAt(op, pat, i - |k| - 1) || OccursAt(v, pat, i - |k| - |op| - 2)
    {
      WhereOccurs(k, op, v, pat, i);
    }
    if Contains(op, pat) {
      var i :| OccursAt(op, pat, i);
      assert OccursAt(Compare(k, op, v), pat, i + |k| + 1);
    }
    if Contains(v, pat) {
      var i :| OccursAt(v, pat, i);
      assert OccursAt(Compare(k, op, v), pat, i + |k| + |op| + 2);
    }
  }

  /** No operator holds another. */
  lemma OperatorsDistinct(op: string, pat: string)
    requires op in {EQ, NE, GT, LT} && pat in {EQ, NE, GT, LT}
    ensures Contains(op, pat) <==> op == pat
    ensures Solid(pat)
  {
    assert op == pat ==> OccursAt(op, pat, 0);
    forall i | OccursAt(op, pat, i) ensures op == pat {
      assert op[i + 0] == pat[0];
    }
  }

  /** When the key does not hold the operator, `k op v` splits into the trimmed operands. */
  lemma SplitCompare(k: string, op: string, v: string)
    requires op in {EQ, NE, GT, LT} && !Contains(k, op)
    ensures SplitOnce(Trim(Compare(k, op, v)), op).Some?
    ensures Trim(SplitOnce(Trim(Compare(k, op, v)), op).value.0) == Trim(k)
    ensures Trim(SplitOnce(Trim(Compare(k, op, v)), op).value.1) == Trim(v)
  {
    SeparatorFirst(k, op, v);
    SplitAfterTrim(Compare(k, op, v), op, |k| + 1);
    TrimmedOperands(k, op, v);
  }

  lemma SeparatorFirst(k: string, op: string, v: string)
    requires op in {EQ, NE, GT, LT} && !Contains(k, op)
    ensures FirstAt(Compare(k, op, v), op, |k| + 1) && Solid(op)
  {
    forall j: int | 0 <= j <= |k| ensures !OccursAt(Compare(k, op, v), op, j) {
      WhereOccurs(k, op, v, op, j);
    }
  }

  /** The blanks around the operator do not belong to the operands. */
  lemma TrimmedOperands(k: string, op: string, v: string)
    ensures var s := Compare(k, op, v);
            Trim(s[..|k| + 1]) == Trim(k) && Trim(s[|k| + 1 + |op|..]) == Trim(v)
  {
    var s := Compare(k, op, v);
    assert s[..|k| + 1] == [] + k + " ";
    TrimIgnoresPadding([], k, " ");
  }

  /** Whether `k op v` is read as a comparison with `pat`. */
  lemma ReadsAs(k: string, op: string, v: string, pat: string)
    requires op in {EQ, NE, GT, LT} && pat in {EQ, NE, GT, LT}
    ensures SplitOnce(Trim(Compare(k, op, v)), pat).Some? <==> op == pat || Contains(k, pat) || Contains(v, pat)
  {
    OperatorsDistinct(op, pat);
    ContainsCompare(k, op, v, pat);
    TrimKeeps(Compare(k, op, v), pat);
  }

  lemma EqualityReads(lib: Numerals, k: string, v: string, state: State)
    requires !Contains(k, EQ)
    ensures EvaluateCondition(lib, Compare(k, EQ, v), state) == TextIs(lib, state, Trim(k), Literal(v))
  {
    SplitCompare(k, EQ, v);
  }

  lemma InequalityReads(lib: Numerals, k: string, v: string, state: State)
    requires !Contains(k, EQ) && !Contains(k, NE) && !Contains(v, EQ)
    ensures EvaluateCondition(lib, Compare(k, NE, v), state) == TextIsNot(lib, state, Trim(k), Literal(v))
  {
    ReadsAs(k, NE, v, EQ);
    SplitCompare(k, NE, v);
  }

  /** The key holds the literal as a string, a number that prints as it, or the boolean it names. */
  ghost predicate Matches(lib: Numerals, state: State, key: string, literal: string) {
    && key in state
    && (|| state[key] == String(literal)
        || (exists n :: state[key] == Number(n) && lib.show(n) == literal)
        || (state[key] == Bool(true) && literal == "true")
        || (state[key] == Bool(false) && literal == "false"))
  }

  lemma MatchesIsText(lib: Numerals, state: State, key: string, literal: string)
    ensures TextIs(lib, state, key, literal) <==> Matches(lib, state, key, literal)
    ensures TextIsNot(lib, state, key, literal) <==> !Matches(lib, state, key, literal)
  {
  }

  /** `k == v` holds exactly when the key `k` matches the literal `v`, if `k` holds no `==`. */
  lemma EqualityMeans(lib: Numerals, k: string, v: string, state: State)
    requires !Contains(k, EQ)
    ensures EvaluateCondition(lib, Compare(k, EQ, v), state) <==> Matches(lib, state, Trim(k), Literal(v))
  {
    EqualityReads(lib, k, v, state);
    MatchesIsText(lib, state, Trim(k), Literal(v));
  }

  /** `k != v` holds exactly when it does not, if neither operand is split by another operator. */
  lemma InequalityMeans(lib: Numerals, k: string, v: string, state: State)
    requires !Contains(k, EQ) && !Contains(k, NE) && !Contains(v, EQ)
    ensures EvaluateCondition(lib, Compare(k, NE, v), state) <==> !Matches(lib, state, Trim(k), Literal(v))
  {
    InequalityReads(lib, k, v, state);
    MatchesIsText(lib, state, Trim(k), Literal(v));
  }

  /** The number under a key, as the order tests see it. */
  ghost predicate NumberAt(state: State, key: string, x: real) {
    key in state && (state[key] == Number(Float(x)) || exists i :: state[key] == Number(Int(i)) && x == i as real)
  }

  /** Neither operand holds an operator. */
  ghost predicate PlainOperands(k: string, v: string) {
    forall op :: op in {EQ, NE, GT, LT} ==> !Contains(k, op) && !Contains(v, op)
  }

  ghost predicate Free(s: string, ops: set<string>) {
    forall op :: op in ops && op in {EQ, NE, GT, LT} ==> !Contains(s, op)
  }

  lemma GreaterReads(lib: Numerals, k: string, v: string, state: State, bound: real)
    requires Free(k, {EQ, NE, GT}) && Free(v, {EQ, NE}) && lib.parse(Trim(v)) == Some(bound)
    ensures var n := AsNumber(Get(state, Trim(k)));
            EvaluateCondition(lib, Compare(k, GT, v), state) <==> n.Some? && n.value > bound
  {
    ReadsAs(k, GT, v, EQ);
    ReadsAs(k, GT, v, NE);
    SplitCompare(k, GT, v);
  }

  lemma LessReads(lib: Numerals, k: string, v: string, state: State, bound: real)
    requires Free(k, {EQ, NE, GT, LT}) && Free(v, {EQ, NE, GT}) && lib.parse(Trim(v)) == Some(bound)
    ensures var n := AsNumber(Get(state, Trim(k)));
            EvaluateCondition(lib, Compare(k, LT, v), state) <==> n.Some? && n.value < bound
  {
    ReadsAs(k, LT, v, EQ);
    ReadsAs(k, LT, v, NE);
    ReadsAs(k, LT, v, GT);
    SplitCompare(k, LT, v);
  }

  lemma NumberAtIsAsNumber(state: State, key: string, x: real)
    ensures NumberAt(state, key, x) <==> AsNumber(Get(state, key)) == Some(x)
  {
  }

  /**
   * `k > v` and `k < v` hold exactly when the key holds a number on that side of the literal, if no
   * operator that is tried before splits the text elsewhere.
   */
  lemma OrderMeans(lib: Numerals, k: string, v: string, state: State, bound: real)
    requires lib.parse(Trim(v)) == Some(bound)
    ensures Free(k, {EQ, NE, GT}) && Free(v, {EQ, NE}) ==>
              (EvaluateCondition(lib, Compare(k, GT, v), state) <==> exists x :: NumberAt(state, Trim(k), x) && x > bound)
    ensures Free(k, {EQ, NE, GT, LT}) && Free(v, {EQ, NE, GT}) ==>
              (EvaluateCondition(lib, Compare(k, LT, v), state) <==> exists x :: NumberAt(state, Trim(k), x) && x < bound)
  {
    if Free(k, {EQ, NE, GT}) && Free(v, {EQ, NE}) {
      GreaterReads(lib, k, v, state, bound);
    }
    if Free(k, {EQ, NE, GT, LT}) && Free(v, {EQ, NE, GT}) {
      LessReads(lib, k, v, state, bound);
    }
    forall x ensures NumberAt(state, Trim(k), x) <==> AsNumber(Get(state, Trim(k))) == Some(x) {
      NumberAtIsAsNumber(state, Trim(k), x);
    }
  }

  /** When the literal is no number, `k > v` and `k < v` are read as keys themselves. */
  lemma OrderWithoutNumber(lib: Numerals, k: string, op: string, v: string, state: State)
    requires PlainOperands(k, v) && op in {GT, LT} && lib.parse(Trim(v)) == None
    ensures var key := Trim(Compare(k, op, v));
            EvaluateCondition(lib, Compare(k, op, v), state)
            <==> key in state && state[key] != Null && state[key] != Bool(false)
  {
    ReadsAs(k, op, v, EQ);
    ReadsAs(k, op, v, NE);
    ReadsAs(k, op, v, GT);
    ReadsAs(k, op, v, LT);
    SplitCompare(k, op, v);
  }

  /** A condition without operators asks whether its key is present and neither null nor false. */
  lemma BareKeyMeans(lib: Numerals, k: string, state: State)
    requires forall op :: op in {EQ, NE, GT, LT} ==> !Contains(k, op)
    ensures EvaluateCondition(lib, k, state)
            <==> Trim(k) in state && state[Trim(k)] != Null && state[Trim(k)] != Bool(false)
  {
    forall op | op in {EQ, NE, GT, LT} ensures SplitOnce(Trim(k), op).None? {
      TrimKeeps(k, op);
    }
  }

  predicate AllQuotes(s: string) {
    forall i :: 0 <= i < |s| ==> s[i] == '"'
  }

  predicate Bare(s: string, c: char) {
    s != [] ==> s[0] != c && s[|s| - 1] != c
  }

  lemma {:induction false} TrimMatchesIsSpan(s: string, c: char) returns (lo: nat, hi: nat)
    ensures lo <= hi <= |s| && TrimMatches(s, c) == s[lo..hi] && Bare(s[lo..hi], c)
    ensures forall i :: 0 <= i < lo || hi <= i < |s| ==> s[i] == c
  {
    lo, hi := 0, |s|;
    if s != [] && s[0] == c {
      lo, hi := TrimMatchesIsSpan(s[1..], c);
      assert s[1..][lo..hi] == s[lo + 1..hi + 1];
      assert forall i :: 0 < i < lo + 1 || hi + 1 <= i < |s| ==> s[i] == s[1..][i - 1];
      lo, hi := lo + 1, hi + 1;
    } else if s != [] && s[|s| - 1] == c {
      var m := |s| - 1;
      lo, hi := TrimMatchesIsSpan(s[..m], c);
      assert s[..m][lo..hi] == s[lo..hi];
      assert forall i :: 0 <= i < m ==> s[i] == s[..m][i];
    } else {
      assert s[0..|s|] == s;
    }
  }

  lemma ThreeParts(s: string, i: nat, j: nat)
    requires i <= j <= |s|
    ensures s == s[..i] + s[i..j] + s[j..]
  {
  }

  /** A literal is its text without the blanks around it, and then without all quotes around that. */
  lemma LiteralMeans(raw: string) returns (a: string, p: string, q: string, b: string)
    ensures raw == a + (p + Literal(raw) + q) + b && AllSpace(a) && AllSpace(b) && AllQuotes(p) && AllQuotes(q)
    ensures Bare(Literal(raw), '"')
    ensures var inner := p + Literal(raw) + q;
            inner != [] ==> !IsSpace(inner[0]) && !IsSpace(inner[|inner| - 1])
  {
    var lo, hi := TrimIsSpan(raw);
    var inner := Trim(raw);
    var i, j := TrimMatchesIsSpan(inner, '"');
    a, p, q, b := raw[..lo], inner[..i], inner[j..], raw[hi..];
    ThreeParts(inner, i, j);
    ThreeParts(raw, lo, hi);
    TrimmedEnds(raw);
  }

  /** Quotes around a literal are dropped, so `k == "v"` and `k == v` ask the same. */
  lemma QuotesDropped(v: string)
    requires forall i :: 0 <= i < |v| ==> v[i] != '"'
    ensures Literal("\"" + v + "\"") == v
  {
    var q := "\"" + v + "\"";
    assert Trim(q) == q;
    var inner := v + "\"";
    assert q[1..] == inner;
    if v != [] {
      assert inner[0] == v[0] && inner[..|inner| - 1] == v;
      assert TrimMatches(inner, '"') == TrimMatches(v, '"') == v;
    } else {
      assert inner[1..] == [];
      assert TrimMatches(inner, '"') == [];
    }
  }

  // ── When equality and inequality are complementary ──────────────

  /** Exactly one of the two conditions holds, whatever the state. */
  ghost predicate Complementary(lib: Numerals, k: string, v: string) {
    forall state: State ::
      EvaluateCondition(lib, Compare(k, EQ, v), state) == !EvaluateCondition(lib, Compare(k, NE, v), state)
  }

  /** A text that reads as an equality test never passes on the empty state. */
  lemma EqualityFailsOnEmptyState(lib: Numerals, s: string)
    requires SplitOnce(Trim(s), EQ).Some?
    ensures !EvaluateCondition(lib, s, map[])
  {
  }

  lemma FirstNotBefore(s: string, pat: string, i: nat)
    requires FirstAt(s, pat, i) && pat != []
    ensures !Contains(s[0..i], pat)
  {
    var f := FindFrom(s[0..i], pat, 0);
    if f.Some? {
      OccursInSpan(s, 0, i, pat, f.value);
    }
  }

  /** With `!=` in the key, `k != v` is split inside the key and looks up a different one. */
  lemma EarlySplit(k: string, v: string)
    requires Contains(k, NE)
    ensures SplitOnce(Trim(Compare(k, NE, v)), NE).Some?
    ensures Trim(SplitOnce(Trim(Compare(k, NE, v)), NE).value.0) != Trim(k)
  {
    var s, i := Compare(k, NE, v), FindFrom(k, NE, 0).value;
    forall j: int | j <= i ensures OccursAt(s, NE, j) <==> j == i {
      WhereOccurs(k, NE, v, NE, j);
    }
    SplitAfterTrim(s, NE, i);
    assert s[..i] == k[0..i];
    FirstNotBefore(k, NE, i);
    TrimKeeps(k, NE);
    TrimKeeps(k[0..i], NE);
  }

  lemma EarlySplitBothHold(lib: Numerals, k: string, v: string)
    requires !Contains(k, EQ) && !Contains(v, EQ) && Contains(k, NE)
    ensures !Complementary(lib, k, v)
  {
    var state: State := map[Trim(k) := String(Literal(v))];
    EqualityReads(lib, k, v, state);
    ReadsAs(k, NE, v, EQ);
    EarlySplit(k, v);
  }

  /**
   * `k == v` and `k != v` are complementary in every state exactly when the key holds neither
   * operator and the literal holds no `==`.
   */
  lemma EqualityPairComplementaryIff(lib: Numerals, k: string, v: string)
    ensures Complementary(lib, k, v) <==> !Contains(k, EQ) && !Contains(k, NE) && !Contains(v, EQ)
  {
    if Contains(k, EQ) || Contains(v, EQ) {
      ReadsAs(k, EQ, v, EQ);
      ReadsAs(k, NE, v, EQ);
      EqualityFailsOnEmptyState(lib, Compare(k, NE, v));
    } else if Contains(k, NE) {
      EarlySplitBothHold(lib, k, v);
    } else {
      forall state: State
        ensures EvaluateCondition(lib, Compare(k, EQ, v), state) == !EvaluateCondition(lib, Compare(k, NE, v), state)
      {
        EqualityMeans(lib, k, v, state);
        InequalityMeans(lib, k, v, state);
      }
    }
  }
}

