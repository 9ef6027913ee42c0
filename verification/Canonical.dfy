/**
 Canonical printing of JSON values with sorted keys, in both forms that the source has. Text is
 a sequence of UTF-16 code units, a number stands for the text that `JSON.stringify` gives it,
 and an object lists its members in insertion order.
 */
module Canonical {
  import opened Wrappers

  type Unit = u: nat | u < 0x1_0000

  type Text = seq<Unit>

  const QUOTE: Unit := 34
  const COMMA: Unit := 44
  const COLON: Unit := 58
  const BACKSLASH: Unit := 92
  const OPEN_ARRAY: Unit := 91
  const CLOSE_ARRAY: Unit := 93
  const OPEN_OBJECT: Unit := 123
  const CLOSE_OBJECT: Unit := 125

  const NULL: Text := [110, 117, 108, 108]
  const TRUE: Text := [116, 114, 117, 101]
  const FALSE: Text := [102, 97, 108, 115, 101]

  datatype Member = Member(key: Text, value: Json)

  datatype Json =
    | Undefined
    | Null
    | Bool(truth: bool)
    | Number(digits: Text)
    | String(text: Text)
    | Array(items: seq<Json>)
    | Object(members: seq<Member>)

  /** What a value means: key order and, in the way each form treats them, undefined members do not matter. */
  datatype Tree =
    | TNull
    | TBool(truth: bool)
    | TNumber(digits: Text)
    | TString(text: Text)
    | TArray(items: seq<Tree>)
    | TObject(members: map<Text, Tree>)

  predicate NumberUnit(u: Unit) {
    48 <= u <= 57 || u == 43 || u == 45 || u == 46 || u == 69 || u == 101
  }

  /** Numbers print as number text; keys are distinct; the form that drops undefined members has no other undefined. */
  predicate WellFormed(v: Json, drop: bool)
    decreases v
  {
    match v
    case Undefined => !drop
    case Number(digits) => digits != [] && forall i :: 0 <= i < |digits| ==> NumberUnit(digits[i])
    case Array(items) => forall i :: 0 <= i < |items| ==> WellFormed(items[i], drop)
    case Object(members) =>
      && (forall i, j :: 0 <= i < j < |members| ==> members[i].key != members[j].key)
      && (forall i :: 0 <= i < |members| ==> Dropped(members[i], drop) || WellFormed(members[i].value, drop))
    case _ => true
  }

  predicate Dropped(m: Member, drop: bool) {
    drop && m.value.Undefined?
  }

  function Meaning(v: Json, drop: bool): Tree
    decreases v
  {
    match v
    case Undefined => TNull
    case Null => TNull
    case Bool(truth) => TBool(truth)
    case Number(digits) => TNumber(digits)
    case String(text) => TString(text)
    case Array(items) => TArray(seq(|items|, i requires 0 <= i < |items| => Meaning(items[i], drop)))
    case Object(members) => TObject(Members(members, drop))
  }

  function Members(members: seq<Member>, drop: bool): map<Text, Tree>
    decreases members
  {
    if members == [] then map[]
    else
      var rest := Members(members[1..], drop);
      if Dropped(members[0], drop) then rest else rest[members[0].key := Meaning(members[0].value, drop)]
  }

  // -------------------------------------------------------------------- printing

  function HexDigit(n: nat): Unit
    requires n < 16
  {
    if n < 10 then 48 + n else 87 + n
  }

  function Hex4(u: Unit): (digits: Text)
    ensures |digits| == 4
  {
    [HexDigit(u / 4096), HexDigit(u / 256 % 16), HexDigit(u / 16 % 16), HexDigit(u % 16)]
  }

  predicate High(u: Unit) { 0xD800 <= u < 0xDC00 }
  predicate Low(u: Unit) { 0xDC00 <= u < 0xE000 }

  /** A surrogate without its partner is escaped. */
  predicate Lone(s: Text, i: nat)
    requires i < |s|
  {
    if High(s[i]) then i + 1 == |s| || !Low(s[i + 1])
    else Low(s[i]) && (i == 0 || !High(s[i - 1]))
  }

  /** The letter of a short escape: b, t, n, f, r. */
  function Short(u: Unit): Option<Unit> {
    if u == 8 then Some(98) else if u == 9 then Some(116) else if u == 10 then Some(110)
    else if u == 12 then Some(102) else if u == 13 then Some(114) else None
  }

  function Escape(s: Text, i: nat): Text
    requires i < |s|
  {
    if s[i] == QUOTE || s[i] == BACKSLASH then [BACKSLASH, s[i]]
    else if Short(s[i]).Some? then [BACKSLASH, Short(s[i]).value]
    else if s[i] < 32 || Lone(s, i) then [BACKSLASH, 117] + Hex4(s[i])
    else [s[i]]
  }

  function Escaped(s: Text, from: nat): Text
    requires from <= |s|
    decreases |s| - from
  {
    if from == |s| then [] else Escape(s, from) + Escaped(s, from + 1)
  }

  function Quoted(s: Text): Text {
    [QUOTE] + Escaped(s, 0) + [QUOTE]
  }

  /** `sort` on strings compares code units. */
  predicate Before(a: Text, b: Text)
    decreases |a|
  {
    if b == [] then false
    else if a == [] then true
    else if a[0] != b[0] then a[0] < b[0]
    else Before(a[1..], b[1..])
  }

  datatype Pair = Pair(key: Text, text: Text)

  function InsertPair(p: Pair, sorted: seq<Pair>): (r: seq<Pair>)
    ensures multiset(r) == multiset(sorted) + multiset{p}
  {
    if sorted == [] then [p]
    else if Before(p.key, sorted[0].key) then [p] + sorted
    else
      assert sorted == [sorted[0]] + sorted[1..];
      [sorted[0]] + InsertPair(p, sorted[1..])
  }

  function SortPairs(pairs: seq<Pair>): (r: seq<Pair>)
    ensures multiset(r) == multiset(pairs)
  {
    if pairs == [] then []
    else
      assert pairs == [pairs[0]] + pairs[1..];
      InsertPair(pairs[0], SortPairs(pairs[1..]))
  }

  function Joined(texts: seq<Text>): Text {
    if texts == [] then [] else if |texts| == 1 then texts[0] else texts[0] + [COMMA] + Joined(texts[1..])
  }

  function PairTexts(pairs: seq<Pair>): (texts: seq<Text>)
    ensures |texts| == |pairs|
  {
    seq(|pairs|, i requires 0 <= i < |pairs| => Quoted(pairs[i].key) + [COLON] + pairs[i].text)
  }

  /** Sorted-key JSON. Keys are sorted after their values are printed, which makes no difference. */
  function Print(v: Json, drop: bool): Text
    decreases v
  {
    match v
    case Undefined => NULL
    case Null => NULL
    case Bool(truth) => if truth then TRUE else FALSE
    case Number(digits) => digits
    case String(text) => Quoted(text)
    case Array(items) =>
      [OPEN_ARRAY] + Joined(seq(|items|, i requires 0 <= i < |items| => Print(items[i], drop))) + [CLOSE_ARRAY]
    case Object(members) => [OPEN_OBJECT] + Joined(PairTexts(SortPairs(Pairs(members, drop)))) + [CLOSE_OBJECT]
  }

  function Pairs(members: seq<Member>, drop: bool): seq<Pair>
    decreases members
  {
    if members == [] then []
    else
      (if Dropped(members[0], drop) then [] else [Pair(members[0].key, Print(members[0].value, drop))]) + Pairs(members[1..], drop)
  }

  // --------------------------------------------------------------------- parsing

  datatype Parsed<T> = Fail | Got(value: T, rest: Text)

  function HexValue(u: Unit): Option<nat> {
    if 48 <= u <= 57 then Some(u - 48) else if 97 <= u <= 102 then Some(u - 87) else None
  }

  function LongShort(letter: Unit): Option<Unit> {
    if letter == QUOTE || letter == BACKSLASH then Some(letter)
    else if letter == 98 then Some(8) else if letter == 116 then Some(9) else if letter == 110 then Some(10)
    else if letter == 102 then Some(12) else if letter == 114 then Some(13) else None
  }

  /** One unit of a string, escaped or not; fails at the closing quote. */
  function ParseUnit(t: Text): (p: Parsed<Unit>)
    ensures p.Got? ==> |p.rest| < |t|
  {
    if t == [] || t[0] == QUOTE then Fail
    else if t[0] != BACKSLASH then Got(t[0], t[1..])
    else if |t| < 2 then Fail
    else if LongShort(t[1]).Some? then Got(LongShort(t[1]).value, t[2..])
    else if t[1] != 117 || |t| < 6 then Fail
    else
      var a, b, c, d := HexValue(t[2]), HexValue(t[3]), HexValue(t[4]), HexValue(t[5]);
      if a.None? || b.None? || c.None? || d.None? then Fail
      else
        var u := a.value * 4096 + b.value * 256 + c.value * 16 + d.value;
        if u >= 0x1_0000 then Fail else Got(u, t[6..])
  }

  /** The rest of a string after its opening quote. */
  function ParseString(t: Text): (p: Parsed<Text>)
    ensures p.Got? ==> |p.rest| < |t|
    decreases |t|
  {
    if t == [] then Fail
    else if t[0] == QUOTE then Got([], t[1..])
    else
      match ParseUnit(t)
      case Fail => Fail
      case Got(u, rest) =>
        match ParseString(rest)
        case Fail => Fail
        case Got(s, after) => Got([u] + s, after)
  }

  function NumberEnd(t: Text, from: nat): (end: nat)
    requires from <= |t|
    ensures from <= end <= |t|
    decreases |t| - from
  {
    if from < |t| && NumberUnit(t[from]) then NumberEnd(t, from + 1) else from
  }

  function ParseValue(t: Text): (p: Parsed<Tree>)
    ensures p.Got? ==> |p.rest| < |t|
    decreases |t|, 0
  {
    if t == [] then Fail
    else if t[0] == QUOTE then
      match ParseString(t[1..])
      case Fail => Fail
      case Got(s, rest) => Got(TString(s), rest)
    else if t[0] == OPEN_ARRAY then
      if |t| > 1 && t[1] == CLOSE_ARRAY then Got(TArray([]), t[2..])
      else
        match ParseItems(t[1..])
        case Fail => Fail
        case Got(items, rest) => Got(TArray(items), rest)
    else if t[0] == OPEN_OBJECT then
      if |t| > 1 && t[1] == CLOSE_OBJECT then Got(TObject(map[]), t[2..])
      else
        match ParseMembers(t[1..])
        case Fail => Fail
        case Got(members, rest) => Got(TObject(members), rest)
    else if NumberUnit(t[0]) then Got(TNumber(t[..NumberEnd(t, 1)]), t[NumberEnd(t, 1)..])
    else if NULL <= t then Got(TNull, t[4..])
    else if TRUE <= t then Got(TBool(true), t[4..])
    else if FALSE <= t then Got(TBool(false), t[5..])
    else Fail
  }

  function ParseItems(t: Text): (p: Parsed<seq<Tree>>)
    ensures p.Got? ==> |p.rest| < |t|
    decreases |t|, 1
  {
    match ParseValue(t)
    case Fail => Fail
    case Got(item, rest) =>
      if rest == [] then Fail
      else if rest[0] == CLOSE_ARRAY then Got([item], rest[1..])
      else if rest[0] != COMMA then Fail
      else
        match ParseItems(rest[1..])
        case Fail => Fail
        case Got(items, after) => Got([item] + items, after)
  }

  function ParseMembers(t: Text): (p: Parsed<map<Text, Tree>>)
    ensures p.Got? ==> |p.rest| < |t|
    decreases |t|, 1
  {
    if t == [] || t[0] != QUOTE then Fail
    else
      match ParseString(t[1..])
      case Fail => Fail
      case Got(key, afterKey) =>
        if afterKey == [] || afterKey[0] != COLON then Fail
        else
          match ParseValue(afterKey[1..])
          case Fail => Fail
          case Got(value, rest) =>
            if rest == [] then Fail
            else if rest[0] == CLOSE_OBJECT then Got(map[key := value], rest[1..])
            else if rest[0] != COMMA then Fail
            else
              match ParseMembers(rest[1..])
              case Fail => Fail
              case Got(members, after) => Got(members[key := value], after)
  }

  // ------------------------------------------------------------------ round trip

  predicate Delimited(rest: Text) {
    rest == [] || rest[0] == COMMA || rest[0] == CLOSE_ARRAY || rest[0] == CLOSE_OBJECT
  }

  /** A text reads back as a tree, whatever may follow it. */
  ghost predicate Means(text: Text, tree: Tree) {
    && text != [] && text[0] != CLOSE_ARRAY && text[0] != CLOSE_OBJECT
    && forall rest :: Delimited(rest) ==> ParseValue(text + rest) == Got(tree, rest)
  }

  lemma HexDigitRoundTrip(n: nat)
    requires n < 16
    ensures HexValue(HexDigit(n)) == Some(n)
  {
  }

  lemma DivideTwice(u: nat)
    ensures u / 16 / 16 == u / 256
  {
    var a, b := u / 256, u % 256;
    assert u == 16 * (16 * a + b / 16) + b % 16;
    assert u / 16 == 16 * a + b / 16;
  }

  lemma HexSum(u: Unit)
    ensures u / 4096 * 4096 + u / 256 % 16 * 256 + u / 16 % 16 * 16 + u % 16 == u
  {
    DivideTwice(u);
    DivideTwice(u / 16);
    assert u / 16 / 256 == u / 4096;
    assert u == 16 * (u / 16) + u % 16;
    assert u / 16 == 16 * (u / 256) + u / 16 % 16;
    assert u / 256 == 16 * (u / 4096) + u / 256 % 16;
  }

  lemma HexRoundTrip(u: Unit)
    ensures var d := Hex4(u);
      && HexValue(d[0]) == Some(u / 4096) && HexValue(d[1]) == Some(u / 256 % 16)
      && HexValue(d[2]) == Some(u / 16 % 16) && HexValue(d[3]) == Some(u % 16)
  {
    HexDigitRoundTrip(u / 4096);
    HexDigitRoundTrip(u / 256 % 16);
    HexDigitRoundTrip(u / 16 % 16);
    HexDigitRoundTrip(u % 16);
  }

  lemma UnitRoundTrip(s: Text, i: nat, rest: Text)
    requires i < |s|
    ensures Escape(s, i) != [] && Escape(s, i)[0] != QUOTE
    ensures ParseUnit(Escape(s, i) + rest) == Got(s[i], rest)
  {
    var e := Escape(s, i);
    assert (e + rest)[|e|..] == rest;
    if |e| == 6 {
      HexRoundTrip(s[i]);
      HexSum(s[i]);
    }
  }

  lemma {:induction false} EscapedRoundTrip(s: Text, from: nat, rest: Text)
    requires from <= |s|
    ensures ParseString(Escaped(s, from) + [QUOTE] + rest) == Got(s[from..], rest)
    decreases |s| - from
  {
    var t := Escaped(s, from) + [QUOTE] + rest;
    if from == |s| {
      assert t == [QUOTE] + rest && t[1..] == rest && s[from..] == [];
    } else {
      var more := Escaped(s, from + 1) + [QUOTE] + rest;
      assert t == Escape(s, from) + more;
      UnitRoundTrip(s, from, more);
      EscapedRoundTrip(s, from + 1, rest);
      assert s[from..] == [s[from]] + s[from + 1..];
    }
  }

  lemma QuotedRoundTrip(s: Text, rest: Text)
    ensures Quoted(s) != [] && Quoted(s)[0] == QUOTE
    ensures ParseString((Quoted(s) + rest)[1..]) == Got(s, rest)
  {
    assert (Quoted(s) + rest)[1..] == Escaped(s, 0) + [QUOTE] + rest;
    EscapedRoundTrip(s, 0, rest);
    assert s[0..] == s;
  }

  lemma StringMeans(s: Text)
    ensures Means(Quoted(s), TString(s))
  {
    forall rest | Delimited(rest) ensures ParseValue(Quoted(s) + rest) == Got(TString(s), rest) {
      QuotedRoundTrip(s, rest);
    }
  }

  lemma {:induction false} NumberEnds(digits: Text, rest: Text, from: nat)
    requires from <= |digits| && (forall i :: 0 <= i < |digits| ==> NumberUnit(digits[i])) && Delimited(rest)
    ensures NumberEnd(digits + rest, from) == |digits|
    decreases |digits| - from
  {
    if from < |digits| { NumberEnds(digits, rest, from + 1); }
  }

  lemma NumberMeans(digits: Text)
    requires digits != [] && forall i :: 0 <= i < |digits| ==> NumberUnit(digits[i])
    ensures Means(digits, TNumber(digits))
  {
    forall rest | Delimited(rest) ensures ParseValue(digits + rest) == Got(TNumber(digits), rest) {
      NumberEnds(digits, rest, 1);
      assert (digits + rest)[..|digits|] == digits && (digits + rest)[|digits|..] == rest;
    }
  }

  lemma LiteralMeans(literal: Text, tree: Tree)
    requires (literal, tree) in {(NULL, TNull), (TRUE, TBool(true)), (FALSE, TBool(false))}
    ensures Means(literal, tree)
  {
    forall rest | Delimited(rest) ensures ParseValue(literal + rest) == Got(tree, rest) {
      assert literal <= literal + rest && (literal + rest)[|literal|..] == rest;
      assert (literal + rest)[0] == literal[0];
    }
  }

  // ------------------------------------------------------------ arrays and objects

  lemma JoinedStep(texts: seq<Text>, rest: Text)
    requires texts != []
    ensures Joined(texts) + rest == texts[0] + if |texts| == 1 then rest else [COMMA] + (Joined(texts[1..]) + rest)
  {
  }

  lemma ItemsParseOne(text: Text, tree: Tree, after: Text)
    requires Means(text, tree) && Delimited(after) && after != []
    ensures ParseItems(text + after) ==
      if after[0] == CLOSE_ARRAY then Got([tree], after[1..])
      else if after[0] != COMMA then Fail
      else
        match ParseItems(after[1..])
        case Fail => Fail
        case Got(items, end) => Got([tree] + items, end)
  {
  }

  lemma {:induction false} ItemsParse(texts: seq<Text>, trees: seq<Tree>, rest: Text)
    requires |texts| == |trees| > 0 && forall i :: 0 <= i < |texts| ==> Means(texts[i], trees[i])
    ensures ParseItems(Joined(texts) + ([CLOSE_ARRAY] + rest)) == Got(trees, rest)
  {
    var close := [CLOSE_ARRAY] + rest;
    JoinedStep(texts, close);
    if |texts| == 1 {
      ItemsParseOne(texts[0], trees[0], close);
      assert close[1..] == rest && trees == [trees[0]];
    } else {
      ItemsParse(texts[1..], trees[1..], rest);
      ItemsParseMore(texts[0], trees[0], Joined(texts[1..]) + close);
      assert trees == [trees[0]] + trees[1..];
    }
  }

  lemma ItemsParseMore(text: Text, tree: Tree, more: Text)
    requires Means(text, tree)
    ensures ParseItems(text + ([COMMA] + more)) ==
      match ParseItems(more)
      case Fail => Fail
      case Got(items, end) => Got([tree] + items, end)
  {
    ItemsParseOne(text, tree, [COMMA] + more);
    assert ([COMMA] + more)[1..] == more;
  }

  lemma JoinedStarts(texts: seq<Text>)
    requires texts != [] && texts[0] != []
    ensures Joined(texts) != [] && Joined(texts)[0] == texts[0][0]
  {
  }

  lemma ArrayOpens(inside: Text, rest: Text)
    requires inside != [] && inside[0] != CLOSE_ARRAY
    ensures ParseValue([OPEN_ARRAY] + inside + [CLOSE_ARRAY] + rest) ==
      match ParseItems(inside + ([CLOSE_ARRAY] + rest))
      case Fail => Fail
      case Got(items, after) => Got(TArray(items), after)
  {
    var text := [OPEN_ARRAY] + inside + [CLOSE_ARRAY] + rest;
    assert text[1..] == inside + ([CLOSE_ARRAY] + rest);
  }

  lemma ArrayParses(texts: seq<Text>, trees: seq<Tree>, rest: Text)
    requires |texts| == |trees| && forall i :: 0 <= i < |texts| ==> Means(texts[i], trees[i])
    ensures ParseValue([OPEN_ARRAY] + Joined(texts) + [CLOSE_ARRAY] + rest) == Got(TArray(trees), rest)
  {
    var text := [OPEN_ARRAY] + Joined(texts) + [CLOSE_ARRAY] + rest;
    if texts == [] {
      assert text[2..] == rest;
    } else {
      assert Means(texts[0], trees[0]);
      JoinedStarts(texts);
      ArrayOpens(Joined(texts), rest);
      ItemsParse(texts, trees, rest);
    }
  }

  lemma ArrayMeans(texts: seq<Text>, trees: seq<Tree>)
    requires |texts| == |trees| && forall i :: 0 <= i < |texts| ==> Means(texts[i], trees[i])
    ensures Means([OPEN_ARRAY] + Joined(texts) + [CLOSE_ARRAY], TArray(trees))
  {
    forall rest | Delimited(rest) ensures ParseValue([OPEN_ARRAY] + Joined(texts) + [CLOSE_ARRAY] + rest) == Got(TArray(trees), rest) {
      ArrayParses(texts, trees, rest);
    }
  }

  function KeysOf(pairs: seq<Pair>): set<Text> {
    set p | p in pairs :: p.key
  }

  function Only(m: map<Text, Tree>, keys: set<Text>): map<Text, Tree> {
    map k | k in keys && k in m :: m[k]
  }

  ghost predicate PairsMean(pairs: seq<Pair>, m: map<Text, Tree>) {
    forall p :: p in pairs ==> p.key in m && Means(p.text, m[p.key])
  }

  lemma KeyParses(key: Text, rest: Text)
    ensures var t := Quoted(key) + [COLON] + rest;
      t != [] && t[0] == QUOTE && ParseString(t[1..]) == Got(key, [COLON] + rest) && ([COLON] + rest)[1..] == rest
  {
    assert Quoted(key) + [COLON] + rest == Quoted(key) + ([COLON] + rest);
    QuotedRoundTrip(key, [COLON] + rest);
  }

  lemma MembersParseOne(p: Pair, after: Text, m: map<Text, Tree>)
    requires p.key in m && Means(p.text, m[p.key]) && Delimited(after) && after != []
    ensures var t := Quoted(p.key) + [COLON] + p.text + after;
      ParseMembers(t) ==
        if after[0] == CLOSE_OBJECT then Got(map[p.key := m[p.key]], after[1..])
        else if after[0] != COMMA then Fail
        else
          match ParseMembers(after[1..])
          case Fail => Fail
          case Got(members, end) => Got(members[p.key := m[p.key]], end)
  {
    assert Quoted(p.key) + [COLON] + p.text + after == Quoted(p.key) + [COLON] + (p.text + after);
    KeyParses(p.key, p.text + after);
  }

  lemma OnlyMore(m: map<Text, Tree>, keys: set<Text>, k: Text)
    requires k in m
    ensures Only(m, {k}) == map[k := m[k]] && Only(m, keys + {k}) == Only(m, keys)[k := m[k]]
  {
  }

  lemma KeysOfCons(pairs: seq<Pair>)
    requires pairs != []
    ensures KeysOf(pairs) == KeysOf(pairs[1..]) + {pairs[0].key} && PairTexts(pairs)[1..] == PairTexts(pairs[1..])
  {
    assert pairs == [pairs[0]] + pairs[1..];
  }

  lemma {:induction false} MembersParse(pairs: seq<Pair>, m: map<Text, Tree>, rest: Text)
    requires pairs != [] && PairsMean(pairs, m)
    ensures ParseMembers(Joined(PairTexts(pairs)) + ([CLOSE_OBJECT] + rest)) == Got(Only(m, KeysOf(pairs)), rest)
  {
    var close, p := [CLOSE_OBJECT] + rest, pairs[0];
    assert p in pairs;
    JoinedStep(PairTexts(pairs), close);
    KeysOfCons(pairs);
    OnlyMore(m, KeysOf(pairs[1..]), p.key);
    if |pairs| == 1 {
      MembersParseOne(p, close, m);
      assert close[1..] == rest && KeysOf(pairs) == {p.key};
    } else {
      var more := Joined(PairTexts(pairs[1..])) + close;
      MembersParseOne(p, [COMMA] + more, m);
      assert ([COMMA] + more)[1..] == more;
      MembersParse(pairs[1..], m, rest);
    }
  }

  lemma ObjectParses(pairs: seq<Pair>, m: map<Text, Tree>, rest: Text)
    requires PairsMean(pairs, m) && KeysOf(pairs) == m.Keys
    ensures ParseValue([OPEN_OBJECT] + Joined(PairTexts(pairs)) + [CLOSE_OBJECT] + rest) == Got(TObject(m), rest)
  {
    var text := [OPEN_OBJECT] + Joined(PairTexts(pairs)) + [CLOSE_OBJECT] + rest;
    if pairs == [] {
      assert text[2..] == rest && m == map[];
    } else {
      JoinedStarts(PairTexts(pairs));
      assert text[1..] == Joined(PairTexts(pairs)) + ([CLOSE_OBJECT] + rest);
      MembersParse(pairs, m, rest);
      assert Only(m, m.Keys) == m;
    }
  }

  lemma ObjectMeans(pairs: seq<Pair>, m: map<Text, Tree>)
    requires PairsMean(pairs, m) && KeysOf(pairs) == m.Keys
    ensures Means([OPEN_OBJECT] + Joined(PairTexts(pairs)) + [CLOSE_OBJECT], TObject(m))
  {
    forall rest | Delimited(rest)
      ensures ParseValue([OPEN_OBJECT] + Joined(PairTexts(pairs)) + [CLOSE_OBJECT] + rest) == Got(TObject(m), rest)
    {
      ObjectParses(pairs, m, rest);
    }
  }

  // ------------------------------------------------------------------- every value

  predicate DistinctKeys(members: seq<Member>) {
    forall i, j :: 0 <= i < j < |members| ==> members[i].key != members[j].key
  }

  lemma {:induction false} PairKeys(members: seq<Member>, drop: bool)
    ensures KeysOf(Pairs(members, drop)) == Members(members, drop).Keys
    ensures forall k :: k in Members(members, drop) ==> exists i :: 0 <= i < |members| && members[i].key == k
  {
    if members != [] {
      var rest := members[1..];
      PairKeys(rest, drop);
      forall k | k in Members(rest, drop) ensures exists i :: 0 <= i < |members| && members[i].key == k {
        var i :| 0 <= i < |rest| && rest[i].key == k;
        assert members[i + 1].key == k;
      }
      assert KeysOf(Pairs(members, drop)) ==
        KeysOf(Pairs(rest, drop)) + if Dropped(members[0], drop) then {} else {members[0].key};
    }
  }

  lemma {:induction false} MembersMean(members: seq<Member>, drop: bool)
    requires DistinctKeys(members)
    requires forall i :: 0 <= i < |members| ==> Dropped(members[i], drop) || WellFormed(members[i].value, drop)
    ensures PairsMean(Pairs(members, drop), Members(members, drop))
    decreases members
  {
    if members != [] {
      var first, rest := members[0], members[1..];
      MembersMean(rest, drop);
      if !Dropped(first, drop) {
        PrintMeans(first.value, drop);
        PairKeys(rest, drop);
        forall k | k in Members(rest, drop) ensures k != first.key {
          var i :| 0 <= i < |rest| && rest[i].key == k;
          assert members[i + 1].key == k;
        }
      }
    }
  }

  lemma SortedPairsMean(pairs: seq<Pair>, m: map<Text, Tree>)
    requires PairsMean(pairs, m)
    ensures PairsMean(SortPairs(pairs), m) && KeysOf(SortPairs(pairs)) == KeysOf(pairs)
  {
    assert forall p :: p in SortPairs(pairs) <==> p in multiset(SortPairs(pairs));
    assert forall p :: p in pairs <==> p in multiset(pairs);
  }

  /** What is printed reads back as the meaning of the value. */
  lemma {:induction false} PrintMeans(v: Json, drop: bool)
    requires WellFormed(v, drop)
    ensures Means(Print(v, drop), Meaning(v, drop))
    decreases v
  {
    match v
    case Undefined => LiteralMeans(NULL, TNull);
    case Null => LiteralMeans(NULL, TNull);
    case Bool(truth) => LiteralMeans(if truth then TRUE else FALSE, TBool(truth));
    case Number(digits) => NumberMeans(digits);
    case String(text) => StringMeans(text);
    case Array(items) =>
      forall i | 0 <= i < |items| ensures Means(Print(items[i], drop), Meaning(items[i], drop)) {
        PrintMeans(items[i], drop);
      }
      ArrayMeans(seq(|items|, i requires 0 <= i < |items| => Print(items[i], drop)),
                 seq(|items|, i requires 0 <= i < |items| => Meaning(items[i], drop)));
    case Object(members) =>
      MembersMean(members, drop);
      PairKeys(members, drop);
      SortedPairsMean(Pairs(members, drop), Members(members, drop));
      ObjectMeans(SortPairs(Pairs(members, drop)), Members(members, drop));
  }

  /** Equal prints mean equal values: nothing else about them can differ. */
  lemma EqualPrintsMeanEqualValues(v: Json, w: Json, drop: bool)
    requires WellFormed(v, drop) && WellFormed(w, drop) && Print(v, drop) == Print(w, drop)
    ensures Meaning(v, drop) == Meaning(w, drop)
  {
    PrintMeans(v, drop);
    PrintMeans(w, drop);
    assert Delimited([]);
    assert ParseValue(Print(v, drop) + []) == Got(Meaning(v, drop), []);
  }

  // ---------------------------------------------------------------- order of keys

  lemma {:induction false} BeforeIsTotal(a: Text, b: Text)
    ensures a == b ==> !Before(a, b)
    ensures a != b ==> (Before(a, b) <==> !Before(b, a))
    decreases |a|
  {
    if a != [] && b != [] && a[0] == b[0] {
      BeforeIsTotal(a[1..], b[1..]);
      assert a == [a[0]] + a[1..] && b == [b[0]] + b[1..];
    }
  }

  lemma {:induction false} BeforeIsTransitive(a: Text, b: Text, c: Text)
    requires Before(a, b) && Before(b, c)
    ensures Before(a, c)
    decreases |a|
  {
    if a != [] && a[0] == b[0] && b[0] == c[0] { BeforeIsTransitive(a[1..], b[1..], c[1..]); }
  }

  ghost predicate Ascending(pairs: seq<Pair>) {
    forall i, j :: 0 <= i < j < |pairs| ==> Before(pairs[i].key, pairs[j].key)
  }

  predicate DistinctPairs(pairs: seq<Pair>) {
    forall i, j :: 0 <= i < j < |pairs| ==> pairs[i].key != pairs[j].key
  }

  lemma ConsAscends(p: Pair, rest: seq<Pair>)
    requires Ascending(rest) && forall q :: q in rest ==> Before(p.key, q.key)
    ensures Ascending([p] + rest)
  {
  }

  lemma InsertMembers(p: Pair, sorted: seq<Pair>)
    ensures forall q :: q in InsertPair(p, sorted) <==> q in sorted || q == p
  {
    assert forall q :: q in InsertPair(p, sorted) <==> q in multiset(sorted) + multiset{p};
  }

  lemma {:induction false} InsertAscends(p: Pair, sorted: seq<Pair>)
    requires Ascending(sorted) && forall q :: q in sorted ==> q.key != p.key
    ensures Ascending(InsertPair(p, sorted))
  {
    if sorted != [] {
      var head, rest := sorted[0], sorted[1..];
      assert head in sorted && sorted == [head] + rest;
      BeforeIsTotal(p.key, head.key);
      if Before(p.key, head.key) {
        forall q | q in sorted ensures Before(p.key, q.key) {
          if q != head { BeforeIsTransitive(p.key, head.key, q.key); }
        }
        ConsAscends(p, sorted);
      } else {
        InsertAscends(p, rest);
        InsertMembers(p, rest);
        ConsAscends(head, InsertPair(p, rest));
      }
    }
  }

  lemma SortMembers(pairs: seq<Pair>)
    ensures forall q :: q in SortPairs(pairs) <==> q in pairs
  {
    assert forall q :: q in SortPairs(pairs) <==> q in multiset(SortPairs(pairs));
    assert forall q :: q in pairs <==> q in multiset(pairs);
  }

  lemma {:induction false} SortAscends(pairs: seq<Pair>)
    requires DistinctPairs(pairs)
    ensures Ascending(SortPairs(pairs))
  {
    if pairs != [] {
      SortAscends(pairs[1..]);
      SortMembers(pairs[1..]);
      InsertAscends(pairs[0], SortPairs(pairs[1..]));
    }
  }

  lemma AscendingTail(a: seq<Pair>)
    requires Ascending(a) && a != []
    ensures Ascending(a[1..]) && forall q :: q in a[1..] <==> q in a && q != a[0]
  {
    forall q | q in a[1..] ensures q != a[0] { BeforeIsTotal(a[0].key, q.key); }
    assert a == [a[0]] + a[1..];
  }

  lemma SameHead(a: seq<Pair>, b: seq<Pair>)
    requires Ascending(a) && Ascending(b) && a != [] && b != [] && a[0] in b && b[0] in a
    ensures a[0] == b[0]
  {
    if a[0] != b[0] {
      assert Before(a[0].key, b[0].key);
      assert Before(b[0].key, a[0].key);
      BeforeIsTotal(a[0].key, b[0].key);
    }
  }

  lemma EmptyWithoutMembers(a: seq<Pair>)
    ensures a == [] <==> forall q :: q !in a
  {
    if a != [] { assert a[0] in a; }
  }

  lemma {:induction false} AscendingIsUnique(a: seq<Pair>, b: seq<Pair>)
    requires Ascending(a) && Ascending(b) && forall q :: q in a <==> q in b
    ensures a == b
  {
    EmptyWithoutMembers(a);
    EmptyWithoutMembers(b);
    if a != [] && b != [] {
      assert a[0] in a && b[0] in b;
      SameHead(a, b);
      AscendingTail(a);
      AscendingTail(b);
      AscendingIsUnique(a[1..], b[1..]);
      assert a == [a[0]] + a[1..] && b == [b[0]] + b[1..];
    }
  }

  lemma {:induction false} PairsDistinct(members: seq<Member>, drop: bool)
    requires DistinctKeys(members)
    ensures DistinctPairs(Pairs(members, drop))
  {
    if members != [] {
      var rest := members[1..];
      PairsDistinct(rest, drop);
      PairKeys(rest, drop);
      forall p | p in Pairs(rest, drop) ensures p.key != members[0].key {
        assert p.key in KeysOf(Pairs(rest, drop));
        var i :| 0 <= i < |rest| && rest[i].key == p.key;
        assert members[i + 1].key == p.key;
      }
    }
  }

  /** The pairs of an object depend on its meaning only, when its values do. */
  ghost predicate SamePrints(v: seq<Member>, w: seq<Member>, drop: bool) {
    forall i, j :: 0 <= i < |v| && 0 <= j < |w| && v[i].key == w[j].key && !Dropped(v[i], drop) && !Dropped(w[j], drop) ==>
      Print(v[i].value, drop) == Print(w[j].value, drop)
  }

  lemma {:induction false} PairOrigin(members: seq<Member>, drop: bool)
    ensures forall p :: p in Pairs(members, drop) <==>
      exists i :: 0 <= i < |members| && !Dropped(members[i], drop) && p == Pair(members[i].key, Print(members[i].value, drop))
  {
    if members != [] {
      var rest := members[1..];
      PairOrigin(rest, drop);
      forall p ensures p in Pairs(members, drop) <==>
        exists i :: 0 <= i < |members| && !Dropped(members[i], drop) && p == Pair(members[i].key, Print(members[i].value, drop))
      {
        if p in Pairs(rest, drop) {
          var i :| 0 <= i < |rest| && !Dropped(rest[i], drop) && p == Pair(rest[i].key, Print(rest[i].value, drop));
          assert members[i + 1] == rest[i];
        }
        if i :| 0 <= i < |members| && !Dropped(members[i], drop) && p == Pair(members[i].key, Print(members[i].value, drop)) {
          if i > 0 { assert rest[i - 1] == members[i]; }
        }
      }
    }
  }

  lemma {:induction false} MemberMeaning(members: seq<Member>, drop: bool, i: nat)
    requires DistinctKeys(members) && i < |members| && !Dropped(members[i], drop)
    ensures members[i].key in Members(members, drop) && Members(members, drop)[members[i].key] == Meaning(members[i].value, drop)
    decreases members
  {
    if i > 0 { MemberMeaning(members[1..], drop, i - 1); }
  }

  lemma SamePairs(v: seq<Member>, w: seq<Member>, drop: bool)
    requires DistinctKeys(v) && DistinctKeys(w) && Members(v, drop).Keys == Members(w, drop).Keys && SamePrints(v, w, drop)
    ensures forall p :: p in Pairs(v, drop) ==> p in Pairs(w, drop)
  {
    PairOrigin(v, drop);
    PairOrigin(w, drop);
    PairKeys(w, drop);
    forall p | p in Pairs(v, drop) ensures p in Pairs(w, drop) {
      var i :| 0 <= i < |v| && !Dropped(v[i], drop) && p == Pair(v[i].key, Print(v[i].value, drop));
      MemberMeaning(v, drop, i);
      assert p.key in KeysOf(Pairs(w, drop));
      var q :| q in Pairs(w, drop) && q.key == p.key;
      var j :| 0 <= j < |w| && !Dropped(w[j], drop) && q == Pair(w[j].key, Print(w[j].value, drop));
      assert p == q;
    }
  }

  lemma SameObjectPrints(v: seq<Member>, w: seq<Member>, drop: bool)
    requires DistinctKeys(v) && DistinctKeys(w) && Members(v, drop).Keys == Members(w, drop).Keys && SamePrints(v, w, drop)
    ensures SortPairs(Pairs(v, drop)) == SortPairs(Pairs(w, drop))
  {
    SamePairs(v, w, drop);
    SamePairs(w, v, drop);
    PairsDistinct(v, drop);
    PairsDistinct(w, drop);
    SortAscends(Pairs(v, drop));
    SortAscends(Pairs(w, drop));
    SortMembers(Pairs(v, drop));
    SortMembers(Pairs(w, drop));
    AscendingIsUnique(SortPairs(Pairs(v, drop)), SortPairs(Pairs(w, drop)));
  }

  /** Equal values print equally, whatever the order of their keys. */
  lemma {:induction false} EqualValuesPrintEqually(v: Json, w: Json, drop: bool)
    requires WellFormed(v, drop) && WellFormed(w, drop) && Meaning(v, drop) == Meaning(w, drop)
    ensures Print(v, drop) == Print(w, drop)
    decreases v
  {
    match v
    case Array(items) =>
      var others := w.items;
      var trees := Meaning(v, drop).items;
      assert trees == Meaning(w, drop).items && |items| == |others|;
      forall i | 0 <= i < |items| ensures Print(items[i], drop) == Print(others[i], drop) {
        assert trees[i] == Meaning(items[i], drop) == Meaning(others[i], drop);
        EqualValuesPrintEqually(items[i], others[i], drop);
      }
      assert seq(|items|, i requires 0 <= i < |items| => Print(items[i], drop))
        == seq(|others|, i requires 0 <= i < |others| => Print(others[i], drop));
    case Object(members) =>
      var others := w.members;
      forall i, j | 0 <= i < |members| && 0 <= j < |others| && members[i].key == others[j].key
          && !Dropped(members[i], drop) && !Dropped(others[j], drop)
        ensures Print(members[i].value, drop) == Print(others[j].value, drop)
      {
        MemberMeaning(members, drop, i);
        MemberMeaning(others, drop, j);
        EqualValuesPrintEqually(members[i].value, others[j].value, drop);
      }
      SameObjectPrints(members, others, drop);
    case _ =>
  }

  /** Canonical printing is injective on JSON values, and blind exactly to the order of keys. */
  lemma PrintsAgreeExactly(v: Json, w: Json, drop: bool)
    requires WellFormed(v, drop) && WellFormed(w, drop)
    ensures Print(v, drop) == Print(w, drop) <==> Meaning(v, drop) == Meaning(w, drop)
  {
    if Print(v, drop) == Print(w, drop) { EqualPrintsMeanEqualValues(v, w, drop); }
    if Meaning(v, drop) == Meaning(w, drop) { EqualValuesPrintEqually(v, w, drop); }
  }

  // ------------------------------------------------------------------ known subtrees

  /**
   What the cache holds for one occurrence of a value, and for the occurrences inside it. The
   source looks objects up by reference, so of two equal subtrees one may be known and the other not.
   */
  datatype Known = Cached(text: Text) | Fresh(parts: seq<Known>)

  /** A part that is not listed is unknown, with everything in it. */
  function PartOf(known: Known, i: nat): Known {
    if known.Fresh? && i < |known.parts| then known.parts[i] else Fresh([])
  }

  function PrintKnown(v: Json, known: Known): Text
    decreases v
  {
    if known.Cached? then known.text
    else
      match v
      case Array(items) =>
        [OPEN_ARRAY] + Joined(seq(|items|, i requires 0 <= i < |items| => PrintKnown(items[i], PartOf(known, i)))) + [CLOSE_ARRAY]
      case Object(members) => [OPEN_OBJECT] + Joined(PairTexts(SortPairs(PairsKnown(members, known, 0)))) + [CLOSE_OBJECT]
      case _ => Print(v, true)
  }

  function PairsKnown(members: seq<Member>, known: Known, index: nat): seq<Pair>
    decreases members
  {
    if members == [] then []
    else
      (if Dropped(members[0], true) then [] else [Pair(members[0].key, PrintKnown(members[0].value, PartOf(known, index)))])
      + PairsKnown(members[1..], known, index + 1)
  }

  /** Whatever the cache holds for an object is the canonical text of that object. */
  ghost predicate TrueTo(v: Json, known: Known)
    decreases v
  {
    if known.Cached? then known.text == Print(v, true)
    else
      match v
      case Array(items) => forall i :: 0 <= i < |items| ==> TrueTo(items[i], PartOf(known, i))
      case Object(members) => forall i :: 0 <= i < |members| ==> TrueTo(members[i].value, PartOf(known, i))
      case _ => true
  }

  /** Printing with a cache, whichever occurrences it knows, equals printing without it. */
  lemma {:induction false} KnownIsHarmless(v: Json, known: Known)
    requires TrueTo(v, known)
    ensures PrintKnown(v, known) == Print(v, true)
    decreases v
  {
    if known.Fresh? {
      match v
      case Array(items) => KnownItems(items, known);
      case Object(members) =>
        assert forall i :: 0 <= i < 0 + |members| ==> TrueTo(members[i - 0].value, PartOf(known, i));
        KnownPairs(members, known, 0);
      case _ =>
    }
  }

  lemma {:induction false} KnownItems(items: seq<Json>, known: Known)
    requires forall i :: 0 <= i < |items| ==> TrueTo(items[i], PartOf(known, i))
    requires known.Fresh?
    ensures PrintKnown(Array(items), known) == Print(Array(items), true)
    decreases items
  {
    forall i | 0 <= i < |items| ensures PrintKnown(items[i], PartOf(known, i)) == Print(items[i], true) {
      KnownIsHarmless(items[i], PartOf(known, i));
    }
    assert seq(|items|, i requires 0 <= i < |items| => PrintKnown(items[i], PartOf(known, i)))
      == seq(|items|, i requires 0 <= i < |items| => Print(items[i], true));
  }

  lemma {:induction false} KnownPairs(members: seq<Member>, known: Known, index: nat)
    requires forall i :: index <= i < index + |members| ==> TrueTo(members[i - index].value, PartOf(known, i))
    ensures PairsKnown(members, known, index) == Pairs(members, true)
    decreases members
  {
    if members != [] {
      var rest := members[1..];
      KnownIsHarmless(members[0].value, PartOf(known, index));
      forall i | index + 1 <= i < index + 1 + |rest| ensures TrueTo(rest[i - (index + 1)].value, PartOf(known, i)) {
        assert rest[i - (index + 1)] == members[i - index];
      }
      KnownPairs(rest, known, index + 1);
    }
  }
}
