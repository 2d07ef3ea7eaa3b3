/** The string helpers of the OBJ/MTL loader: trimming, whitespace tokenising as
    `operator>>` does it, splitting as `std::getline` with a delimiter does it,
    decimal conversion (`std::to_string`, `std::stoi`, `operator>>` into a float),
    lower-casing, substring search and the few path operations the loader uses. */
module Text {
  import opened Wrappers

  /** The characters `trim` strips from both ends: space, tab, CR and LF. */
  predicate IsTrimChar(c: char) {
    c == ' ' || c == '\t' || c == '\r' || c == '\n'
  }

  /** The characters stream extraction skips between tokens (`isspace` in the C locale). */
  predicate IsSpace(c: char) {
    IsTrimChar(c) || c as int == 11 || c as int == 12
  }

  function TrimLeft(s: string): string {
    if s != [] && IsTrimChar(s[0]) then TrimLeft(s[1..]) else s
  }

  function TrimRight(s: string): string {
    if s != [] && IsTrimChar(s[|s| - 1]) then TrimRight(s[..|s| - 1]) else s
  }

  /** `trim` (ModelLoader.cpp): the slice of `s` between its leading and trailing
      run of trim characters; empty when `s` holds nothing else. */
  function Trim(s: string): string {
    TrimRight(TrimLeft(s))
  }

  /** Left trimming drops exactly the leading run of trim characters. */
  lemma {:induction false} TrimLeftSuffix(s: string)
    ensures |TrimLeft(s)| <= |s| && TrimLeft(s) == s[|s| - |TrimLeft(s)|..]
    ensures forall k :: 0 <= k < |s| - |TrimLeft(s)| ==> IsTrimChar(s[k])
    ensures TrimLeft(s) == [] || !IsTrimChar(TrimLeft(s)[0])
    decreases |s|
  {
    if s != [] && IsTrimChar(s[0]) {
      TrimLeftSuffix(s[1..]);
    }
  }

  /** Right trimming drops exactly the trailing run of trim characters. */
  lemma {:induction false} TrimRightPrefix(s: string)
    ensures |TrimRight(s)| <= |s| && TrimRight(s) == s[..|TrimRight(s)|]
    ensures forall k :: |TrimRight(s)| <= k < |s| ==> IsTrimChar(s[k])
    ensures TrimRight(s) == [] || !IsTrimChar(TrimRight(s)[|TrimRight(s)| - 1])
    decreases |s|
  {
    if s != [] && IsTrimChar(s[|s| - 1]) {
      TrimRightPrefix(s[..|s| - 1]);
    }
  }

  /** The trimmed string is the slice of `s` left after removing a leading and a
      trailing run of trim characters, and it neither starts nor ends with one. */
  lemma TrimSlice(s: string)
    ensures |TrimLeft(s)| <= |s|
    ensures var r := Trim(s);
      r == [] || (!IsTrimChar(r[0]) && !IsTrimChar(r[|r| - 1]))
    ensures var r, i := Trim(s), |s| - |TrimLeft(s)|;
      i + |r| <= |s| && r == s[i..i + |r|]
      && (forall k :: 0 <= k < i ==> IsTrimChar(s[k]))
      && (forall k :: i + |r| <= k < |s| ==> IsTrimChar(s[k]))
  {
    TrimLeftSuffix(s);
    TrimRightPrefix(TrimLeft(s));
  }

  /** Trimming a trimmed string changes nothing. */
  lemma {:induction false} TrimIdempotent(s: string)
    ensures Trim(Trim(s)) == Trim(s)
  {
    var t := Trim(s);
    TrimSlice(s);
    if t != [] {
      assert TrimLeft(t) == t;
      assert TrimRight(t) == t;
    }
  }

  /** A token: a non-empty run of non-space characters. */
  predicate IsWord(w: string) {
    w != [] && forall k :: 0 <= k < |w| ==> !IsSpace(w[k])
  }

  /** Length of the leading run of non-space characters of `s`. */
  function WordLength(s: string): (n: nat)
    ensures n <= |s|
    ensures forall k :: 0 <= k < n ==> !IsSpace(s[k])
    ensures n == |s| || IsSpace(s[n])
  {
    if s == [] || IsSpace(s[0]) then 0 else 1 + WordLength(s[1..])
  }

  /** The strings that repeated `iss >> token` extracts from `s`. */
  function Tokens(s: string): (r: seq<string>)
    ensures forall j :: 0 <= j < |r| ==> IsWord(r[j])
    decreases |s|
  {
    if s == [] then []
    else if IsSpace(s[0]) then Tokens(s[1..])
    else
      var n := WordLength(s);
      [s[..n]] + Tokens(s[n..])
  }

  /** The words separated by single spaces. */
  function Unwords(ws: seq<string>): string {
    if |ws| == 0 then ""
    else if |ws| == 1 then ws[0]
    else ws[0] + " " + Unwords(ws[1..])
  }

  lemma {:induction false} WordLengthOfWord(w: string, rest: string)
    requires IsWord(w)
    requires rest == [] || IsSpace(rest[0])
    ensures WordLength(w + rest) == |w|
    decreases |w|
  {
    if |w| > 1 {
      assert (w + rest)[1..] == w[1..] + rest;
      WordLengthOfWord(w[1..], rest);
    } else {
      assert (w + rest)[1..] == rest;
    }
  }

  /** Tokenising words joined by spaces gives the words back. */
  lemma {:induction false} TokensUnwords(ws: seq<string>)
    requires forall j :: 0 <= j < |ws| ==> IsWord(ws[j])
    ensures Tokens(Unwords(ws)) == ws
  {
    if |ws| == 0 {
    } else if |ws| == 1 {
      var w := ws[0];
      WordLengthOfWord(w, []);
      assert w + [] == w;
      assert w[|w|..] == [];
    } else {
      var w := ws[0];
      var tail := " " + Unwords(ws[1..]);
      var s := w + tail;
      assert Unwords(ws) == s;
      WordLengthOfWord(w, tail);
      assert s[..|w|] == w;
      assert s[|w|..] == tail;
      assert tail[1..] == Unwords(ws[1..]);
      TokensUnwords(ws[1..]);
      assert Tokens(tail) == Tokens(Unwords(ws[1..]));
    }
  }

  /** Position of the first `c` in `s`, or `|s|` when there is none. */
  function IndexOfChar(s: string, c: char): (k: nat)
    ensures k <= |s|
    ensures k < |s| ==> s[k] == c
  {
    if s == [] then 0 else if s[0] == c then 0 else 1 + IndexOfChar(s[1..], c)
  }

  /** No `c` comes before the position found. */
  lemma {:induction false} IndexOfCharFirst(s: string, c: char)
    ensures forall j :: 0 <= j < IndexOfChar(s, c) ==> s[j] != c
    decreases |s|
  {
    if s != [] && s[0] != c {
      IndexOfCharFirst(s[1..], c);
    }
  }

  /** `split` (ModelLoader.cpp): the fields `std::getline(iss, token, d)` yields in
      turn. A trailing delimiter yields no empty last field; an empty input yields
      no field at all. */
  function Split(s: string, d: char): (r: seq<string>)
    ensures s == [] <==> r == []
    decreases |s|
  {
    if s == [] then []
    else
      var k := IndexOfChar(s, d);
      if k == |s| then [s] else [s[..k]] + Split(s[k + 1..], d)
  }

  /** No field holds the delimiter. */
  lemma {:induction false} SplitFieldsHaveNoDelimiter(s: string, d: char)
    ensures forall j :: 0 <= j < |Split(s, d)| ==> d !in Split(s, d)[j]
    decreases |s|
  {
    if s != [] {
      var k := IndexOfChar(s, d);
      IndexOfCharFirst(s, d);
      if k < |s| {
        SplitFieldsHaveNoDelimiter(s[k + 1..], d);
        assert d !in s[..k];
      }
    }
  }

  /** The fields joined with `d` between them. */
  function JoinWith(parts: seq<string>, d: char): string {
    if |parts| == 0 then ""
    else if |parts| == 1 then parts[0]
    else parts[0] + [d] + JoinWith(parts[1..], d)
  }

  /** Three fields joined with `d`. */
  lemma JoinThree(a: string, b: string, c: string, d: char)
    ensures JoinWith([a, b, c], d) == a + [d] + b + [d] + c
  {
    assert [a, b, c][1..] == [b, c] && [b, c][1..] == [c];
    assert JoinWith([b, c], d) == b + [d] + c;
  }

  /** Splitting fields joined by `d` gives them back, provided none holds `d`
      and the last is not empty. */
  lemma {:induction false} SplitJoinWith(parts: seq<string>, d: char)
    requires |parts| >= 1 && parts[|parts| - 1] != []
    requires forall j :: 0 <= j < |parts| ==> d !in parts[j]
    ensures Split(JoinWith(parts, d), d) == parts
  {
    var p := parts[0];
    if |parts| == 1 {
      assert IndexOfChar(p, d) == |p|;
    } else {
      var rest := JoinWith(parts[1..], d);
      var s := p + [d] + rest;
      assert JoinWith(parts, d) == s;
      assert IndexOfChar(s, d) == |p| by {
        IndexOfCharFirst(s, d);
        assert forall k :: 0 <= k < |p| ==> s[k] == p[k];
        assert s[|p|] == d;
      }
      assert s[..|p|] == p;
      assert s[|p| + 1..] == rest;
      SplitJoinWith(parts[1..], d);
    }
  }

  predicate IsDigit(c: char) {
    '0' <= c <= '9'
  }

  predicate AllDigits(s: string) {
    forall k :: 0 <= k < |s| ==> IsDigit(s[k])
  }

  function DigitChar(d: nat): (c: char)
    requires d < 10
    ensures IsDigit(c) && c as int - '0' as int == d
  {
    ('0' as int + d) as char
  }

  /** The number a string of decimal digits denotes (empty denotes 0). */
  function DigitsValue(s: string): nat
    requires AllDigits(s)
  {
    if s == [] then 0
    else DigitsValue(s[..|s| - 1]) * 10 + (s[|s| - 1] as int - '0' as int)
  }

  /** Decimal representation of a natural number, without leading zeros. */
  function NatToString(n: nat): (s: string)
    ensures |s| >= 1 && AllDigits(s)
  {
    if n < 10 then [DigitChar(n)] else NatToString(n / 10) + [DigitChar(n % 10)]
  }

  /** `std::to_string` of an integer. */
  function IntToString(i: int): (s: string)
    ensures s != [] && '/' !in s
  {
    if i < 0 then "-" + NatToString(-i) else NatToString(i)
  }

  lemma {:induction false} DigitsValueNatToString(n: nat)
    ensures DigitsValue(NatToString(n)) == n
  {
    if n >= 10 {
      var s := NatToString(n / 10) + [DigitChar(n % 10)];
      assert s[..|s| - 1] == NatToString(n / 10);
      DigitsValueNatToString(n / 10);
    }
  }

  /** `std::stoi` applied to a whole token: an optional sign followed by one or
      more decimal digits; anything else is rejected. */
  function ParseInt(s: string): Option<int> {
    if s != [] && (s[0] == '-' || s[0] == '+') then
      match ParseNat(s[1..])
      case Some(magnitude) => var m: int := magnitude; Some(if s[0] == '-' then -m else m)
      case None => None
    else
      ParseNat(s)
  }

  /** One or more decimal digits and nothing else. */
  function ParseNat(s: string): Option<nat> {
    if s != [] && AllDigits(s) then Some(DigitsValue(s)) else None
  }

  /** Reading back the decimal text of an integer gives the integer. */
  lemma {:induction false} ParseIntToString(i: int)
    ensures ParseInt(IntToString(i)) == Some(i)
  {
    if i < 0 {
      var body := NatToString(-i);
      assert ("-" + body)[1..] == body;
      DigitsValueNatToString(-i);
    } else {
      assert IsDigit(NatToString(i)[0]);
      DigitsValueNatToString(i);
    }
  }

  /** Distinct integers have distinct decimal texts. */
  lemma {:induction false} IntToStringInjective(a: int, b: int)
    ensures IntToString(a) == IntToString(b) ==> a == b
  {
    ParseIntToString(a);
    ParseIntToString(b);
  }

  /** Distinct natural numbers have distinct decimal texts. */
  lemma {:induction false} NatToStringInjective(a: nat, b: nat)
    ensures NatToString(a) == NatToString(b) ==> a == b
  {
    DigitsValueNatToString(a);
    DigitsValueNatToString(b);
  }

  /** The value of an unsigned decimal mantissa `int[.frac]`, when well formed. */
  function ParseMantissa(m: string): Option<real> {
    var k := IndexOfChar(m, '.');
    var whole := m[..k];
    var frac := if k < |m| then m[k + 1..] else "";
    if AllDigits(whole) && AllDigits(frac) && |whole| + |frac| >= 1 then
      Some(DigitsValue(whole) as real + ScaleByPow10(DigitsValue(frac) as real, -|frac|))
    else
      None
  }

  /** `v` times ten to the power `e`, one factor of ten at a time. */
  function ScaleByPow10(v: real, e: int): real
    decreases if e >= 0 then e else -e
  {
    if e == 0 then v
    else if e > 0 then 10.0 * ScaleByPow10(v, e - 1)
    else ScaleByPow10(v, e + 1) / 10.0
  }

  /** `operator>>` into a float applied to a whole token: optional sign, decimal
      mantissa with an optional fraction, optional exponent. */
  function ParseReal(s: string): Option<real> {
    var negative := s != [] && s[0] == '-';
    var body := if s != [] && (s[0] == '-' || s[0] == '+') then s[1..] else s;
    var v := ParseUnsignedReal(body);
    if v.Some? && negative then Some(-v.value) else v
  }

  /** The unsigned part of a float token: mantissa and optional exponent. */
  function ParseUnsignedReal(body: string): Option<real> {
    var e := min(IndexOfChar(body, 'e'), IndexOfChar(body, 'E'));
    var mantissa := ParseMantissa(body[..e]);
    var exponent := if e < |body| then ParseInt(body[e + 1..]) else Some(0);
    if mantissa.Some? && exponent.Some? then
      Some(ScaleByPow10(mantissa.value, exponent.value))
    else
      None
  }

  function min(a: nat, b: nat): nat {
    if a <= b then a else b
  }

  /** A digit string holds no '.', 'e' or 'E'. */
  lemma {:induction false} NoMarkInDigits(s: string, c: char)
    requires AllDigits(s) && !IsDigit(c)
    ensures IndexOfChar(s, c) == |s|
  {
    if IndexOfChar(s, c) < |s| {
      assert false;
    }
  }

  /** The digits of a natural number, read as an unsigned float, give that number. */
  lemma {:induction false} UnsignedRealOfNat(n: nat)
    ensures ParseUnsignedReal(NatToString(n)) == Some(n as real)
  {
    var body := NatToString(n);
    NoMarkInDigits(body, 'e');
    NoMarkInDigits(body, 'E');
    NoMarkInDigits(body, '.');
    assert body[..|body|] == body;
    DigitsValueNatToString(n);
    assert ParseMantissa(body) == Some(n as real);
  }

  /** A natural number written in decimal reads back as the same real number. */
  lemma {:induction false} ParseRealOfNat(n: nat)
    ensures ParseReal(NatToString(n)) == Some(n as real)
  {
    UnsignedRealOfNat(n);
    assert IsDigit(NatToString(n)[0]);
  }

  /** A '-' in front of an unsigned float token negates its value. */
  lemma NegatedReal(body: string)
    ensures var v := ParseUnsignedReal(body);
      ParseReal("-" + body) == if v.Some? then Some(-v.value) else None
  {
    assert ("-" + body)[1..] == body;
  }

  /** An integer written in decimal reads back as the same real number. */
  lemma {:induction false} ParseRealOfInt(i: int)
    ensures ParseReal(IntToString(i)) == Some(i as real)
  {
    if i < 0 {
      NegatedReal(NatToString(-i));
      UnsignedRealOfNat(-i);
    } else {
      ParseRealOfNat(i);
    }
  }

  function LowerChar(c: char): char {
    if 'A' <= c <= 'Z' then (c as int - 'A' as int + 'a' as int) as char else c
  }

  /** `std::tolower` over every character (ASCII letters only). */
  function ToLower(s: string): (r: string)
    ensures |r| == |s|
    ensures forall k :: 0 <= k < |s| ==> r[k] == LowerChar(s[k])
  {
    seq(|s|, k requires 0 <= k < |s| => LowerChar(s[k]))
  }

  /** Lower-casing twice is lower-casing once. */
  lemma ToLowerIdempotent(s: string)
    ensures ToLower(ToLower(s)) == ToLower(s)
  {
  }

  predicate StartsWith(s: string, prefix: string) {
    |prefix| <= |s| && s[..|prefix|] == prefix
  }

  /** `sub` occurs in `s` starting at position `i`. */
  predicate OccursAt(s: string, sub: string, i: int) {
    0 <= i && i + |sub| <= |s| && s[i..i + |sub|] == sub
  }

  /** `std::string::find(sub) != npos`. */
  predicate Contains(s: string, sub: string) {
    StartsWith(s, sub) || (s != [] && Contains(s[1..], sub))
  }

  /** `Contains` holds exactly when `sub` occurs somewhere in `s`. */
  lemma {:induction false} ContainsOccurs(s: string, sub: string)
    ensures Contains(s, sub) <==> exists i :: OccursAt(s, sub, i)
    decreases |s|
  {
    if StartsWith(s, sub) {
      assert OccursAt(s, sub, 0);
    } else if s == [] {
      assert forall i :: !OccursAt(s, sub, i);
    } else {
      ContainsOccurs(s[1..], sub);
      assert forall i :: OccursAt(s[1..], sub, i) <==> OccursAt(s, sub, i + 1);
      assert !OccursAt(s, sub, 0);
      assert forall i :: OccursAt(s, sub, i) ==> OccursAt(s[1..], sub, i - 1);
    }
  }


  /** Position of the last `c` in `s`, or -1 when there is none. */
  function LastIndexOfChar(s: string, c: char): (k: int)
    ensures -1 <= k < |s|
  {
    if s == [] then -1
    else if s[|s| - 1] == c then |s| - 1
    else LastIndexOfChar(s[..|s| - 1], c)
  }

  /** The position found is an occurrence of `c` (or -1) and no `c` follows it. */
  lemma {:induction false} LastIndexOfCharSpec(s: string, c: char)
    ensures var k := LastIndexOfChar(s, c);
      (k >= 0 ==> s[k] == c) && forall j :: k < j < |s| ==> s[j] != c
    decreases |s|
  {
    if s != [] && s[|s| - 1] != c {
      LastIndexOfCharSpec(s[..|s| - 1], c);
    }
  }

  /** The last component of a '/'-separated path. */
  function FileName(path: string): string {
    var k := LastIndexOfChar(path, '/');
    path[k + 1..]
  }

  /** A file name holds no '/'. */
  lemma FileNameHasNoSlash(path: string)
    ensures '/' !in FileName(path)
  {
    LastIndexOfCharSpec(path, '/');
    var k := LastIndexOfChar(path, '/');
    var f := FileName(path);
    assert forall j :: 0 <= j < |f| ==> f[j] == path[k + 1 + j];
  }

  /** `parent_path()`: everything before the last '/', the root kept as "/". */
  function ParentPath(path: string): string {
    var k := LastIndexOfChar(path, '/');
    if k < 0 then "" else if k == 0 then "/" else path[..k]
  }

  /** `operator/` on paths: an absolute `name` replaces `dir`. */
  function JoinPath(dir: string, name: string): string {
    if dir == [] || StartsWith(name, "/") then name
    else if dir[|dir| - 1] == '/' then dir + name
    else dir + "/" + name
  }

  /** `stem()`: the file name without its last extension; "." and ".." and names
      whose only dot is the first character are kept whole. */
  function Stem(path: string): string {
    var f := FileName(path);
    var k := LastIndexOfChar(f, '.');
    if f == "." || f == ".." || k <= 0 then f else f[..k]
  }

  /** The stem of a path is a '/'-free part of its file name. */
  lemma StemHasNoSlash(path: string)
    ensures '/' !in Stem(path)
  {
    FileNameHasNoSlash(path);
    LastIndexOfCharSpec(FileName(path), '.');
  }
}
