/** Scanning an option argument of the form "name value". */
module Options {

  // What the scan finds; a name and a value go on to the lookup of the option.
  datatype Scan =
    | StartsWithStar
    | AllBlank
    | BadSeparator(separator: char)
    | Option(name: string, value: string)

  // isspace and isalnum in the C locale.
  predicate IsSpace(c: char) {
    c == ' ' || '\t' <= c <= '\r'
  }

  predicate IsAlnum(c: char) {
    '0' <= c <= '9' || 'A' <= c <= 'Z' || 'a' <= c <= 'z'
  }

  predicate IsNameChar(c: char) {
    IsAlnum(c) || c == '_'
  }

  predicate IsSeparator(c: char) {
    c == ' ' || c == '='
  }

  // ---------- The language of option arguments ----------

  predicate AllSpace(s: string) {
    forall i :: 0 <= i < |s| ==> IsSpace(s[i])
  }

  predicate AllName(s: string) {
    forall i :: 0 <= i < |s| ==> IsNameChar(s[i])
  }

  // No blank at either end.
  predicate NoOuterBlanks(s: string) {
    s != [] ==> !IsSpace(s[0]) && !IsSpace(s[|s| - 1])
  }

  // A C string: the terminator is not part of it.
  predicate CString(s: string) {
    forall i :: 0 <= i < |s| ==> s[i] != '\0'
  }

  // Blanks and a name, as long as possible, in front of a tail.
  predicate Split(s: string, blanks: string, name: string, tail: string) {
    && s == blanks + name + tail && AllSpace(blanks) && AllName(name)
    && (tail != [] ==> !IsNameChar(tail[0]) && (name == [] ==> !IsSpace(tail[0])))
  }

  // A value between blanks.
  predicate Surrounded(s: string, blanks: string, value: string, trailing: string) {
    s == blanks + value + trailing && AllSpace(blanks) && AllSpace(trailing) && NoOuterBlanks(value)
  }

  // The value that is left of s without the blanks around it.
  ghost predicate HasValue(s: string, value: string) {
    exists blanks, trailing :: Surrounded(s, blanks, value, trailing)
  }

  // What a name and the tail behind it mean.
  ghost predicate Means(name: string, tail: string, r: Scan) {
    if tail == [] then
      r == if name == [] then AllBlank else Option(name, [])
    else if IsSeparator(tail[0]) then
      r.Option? && r.name == name && HasValue(tail[1..], r.value)
    else
      r == BadSeparator(tail[0])
  }

  /** The meaning of an argument. */
  ghost predicate Describes(r: Scan, s: string) {
    if s != [] && s[0] == '*' then r == StartsWithStar
    else exists blanks, name, tail :: Split(s, blanks, name, tail) && Means(name, tail, r)
  }

  // Where the parts of an argument are, said of the argument itself.
  lemma SplitPlaces(s: string, b: string, n: string, t: string)
    requires Split(s, b, n, t)
    ensures var i, j := |b|, |b| + |n|;
      && j <= |s| && n == s[i..j] && t == s[j..]
      && (forall k :: 0 <= k < i ==> IsSpace(s[k])) && (i < |s| ==> !IsSpace(s[i]))
      && (forall k :: i <= k < j ==> IsNameChar(s[k])) && (j < |s| ==> !IsNameChar(s[j]))
  {
    var i, j := |b|, |b| + |n|;
    forall k | i <= k < j ensures IsNameChar(s[k]) {
      assert s[k] == n[k - i];
    }
    assert t != [] ==> s[j] == t[0];
    assert n != [] ==> s[i] == n[0];
  }

  lemma SplitUnique(s: string, b: string, n: string, t: string, b': string, n': string, t': string)
    requires Split(s, b, n, t) && Split(s, b', n', t')
    ensures n == n' && t == t'
  {
    SplitPlaces(s, b, n, t);
    SplitPlaces(s, b', n', t');
    assert |b| == |b'|;
    assert |n| == |n'|;
  }

  lemma SurroundedPlaces(s: string, b: string, v: string, t: string)
    requires Surrounded(s, b, v, t)
    ensures var i, j := |b|, |b| + |v|;
      && j <= |s| && v == s[i..j]
      && (v == [] ==> forall k :: 0 <= k < |s| ==> IsSpace(s[k]))
      && (v != [] ==> !IsSpace(s[i]) && !IsSpace(s[j - 1]))
      && (forall k :: 0 <= k < i ==> IsSpace(s[k])) && (forall k :: j <= k < |s| ==> IsSpace(s[k]))
  {
    var i, j := |b|, |b| + |v|;
    forall k | j <= k < |s| ensures IsSpace(s[k]) {
      assert s[k] == t[k - j];
    }
    assert v != [] ==> s[i] == v[0] && s[j - 1] == v[|v| - 1];
  }

  lemma SurroundedUnique(s: string, b: string, v: string, t: string, b': string, v': string, t': string)
    requires Surrounded(s, b, v, t) && Surrounded(s, b', v', t')
    ensures v == v'
  {
    SurroundedPlaces(s, b, v, t);
    SurroundedPlaces(s, b', v', t');
    if v != [] && v' != [] {
      assert |b| == |b'|;
      assert |v| == |v'|;
    }
  }

  /** An argument has exactly one meaning. */
  lemma MeaningUnique(s: string, r: Scan, r': Scan)
    requires Describes(r, s) && Describes(r', s)
    ensures r == r'
  {
    if !(s != [] && s[0] == '*') {
      var b, n, t :| Split(s, b, n, t) && Means(n, t, r);
      var b', n', t' :| Split(s, b', n', t') && Means(n', t', r');
      SplitUnique(s, b, n, t, b', n', t');
      if t != [] && IsSeparator(t[0]) {
        var c, d :| Surrounded(t[1..], c, r.value, d);
        var c', d' :| Surrounded(t[1..], c', r'.value, d');
        SurroundedUnique(t[1..], c, r.value, d, c', r'.value, d');
      }
    }
  }

  // Blanks, a name, one separator, blanks, a value and blanks; without a name the separator must not be
  // a blank, or it would be one of the blanks in front.
  predicate Composition(s: string, name: string, value: string, b: string, separator: char, c: string, d: string) {
    && s == b + name + ([separator] + (c + value + d))
    && AllSpace(b) && AllName(name) && IsSeparator(separator) && (name == [] ==> separator == '=')
    && AllSpace(c) && NoOuterBlanks(value) && AllSpace(d)
  }

  /** Round trip: what is composed of a name and a value means that name and that value. */
  lemma Composed(s: string, name: string, value: string, b: string, separator: char, c: string, d: string)
    requires Composition(s, name, value, b, separator, c, d)
    ensures Describes(Option(name, value), s)
  {
    var tail := [separator] + (c + value + d);
    assert tail[1..] == c + value + d;
    assert Surrounded(tail[1..], c, value, d);
    assert Split(s, b, name, tail) && Means(name, tail, Option(name, value));
    assert s[0] == if b != [] then b[0] else if name != [] then name[0] else separator;
  }

  /** Conversely, only such arguments have a value that is not empty. */
  lemma Decomposed(s: string, name: string, value: string)
    returns (b: string, separator: char, c: string, d: string)
    requires Describes(Option(name, value), s) && value != []
    ensures Composition(s, name, value, b, separator, c, d)
  {
    var b0, n0, tail :| Split(s, b0, n0, tail) && Means(n0, tail, Option(name, value));
    b, separator := b0, tail[0];
    var c0, d0 :| Surrounded(tail[1..], c0, value, d0);
    c, d := c0, d0;
    assert tail == [separator] + tail[1..];
  }

  // A blank in front of '=' makes the sign part of the value.
  lemma SpacedEquals(name: string, value: string)
    requires AllName(name) && name != [] && NoOuterBlanks(value) && value != []
    ensures Describes(Option(name, "= " + value), name + " = " + value)
  {
    var v := "= " + value;
    assert name + " = " + value == [] + name + ([' '] + ([] + v + []));
    Composed(name + " = " + value, name, v, [], ' ', [], []);
  }

  /** An argument means a name and a value that is not empty exactly when it is composed of them. */
  lemma OptionArguments(s: string, r: Scan, name: string, value: string)
    requires Describes(r, s) && value != []
    ensures r == Option(name, value) <==> exists b, separator, c, d :: Composition(s, name, value, b, separator, c, d)
  {
    if r == Option(name, value) {
      var b, separator, c, d := Decomposed(s, name, value);
    }
    if b, separator, c, d :| Composition(s, name, value, b, separator, c, d) {
      Composed(s, name, value, b, separator, c, d);
      MeaningUnique(s, r, Option(name, value));
    }
  }

  // ---------- The other outcomes, in characters ----------

  // The characters of s before i are blanks, and those from i to j are letters, digits and underscores.
  predicate NameAt(s: string, i: nat, j: nat) {
    && i <= j <= |s|
    && (forall k :: 0 <= k < i ==> s[k] == ' ' || '\t' <= s[k] <= '\r')
    && (forall k :: i <= k < j ==> '0' <= s[k] <= '9' || 'A' <= s[k] <= 'Z' || 'a' <= s[k] <= 'z' || s[k] == '_')
  }

  // The name ends at j: another character is there, or none.
  predicate NameEndsAt(s: string, i: nat, j: nat) {
    && NameAt(s, i, j)
    && (j < |s| ==>
          && !('0' <= s[j] <= '9' || 'A' <= s[j] <= 'Z' || 'a' <= s[j] <= 'z' || s[j] == '_')
          && (i == j ==> !(s[j] == ' ' || '\t' <= s[j] <= '\r')))
  }

  lemma SplitAtName(s: string, i: nat, j: nat)
    requires NameEndsAt(s, i, j)
    ensures Split(s, s[..i], s[i..j], s[j..])
  {
    var b, n, t := s[..i], s[i..j], s[j..];
    assert s == b + n + t;
    forall k | 0 <= k < |b| ensures IsSpace(b[k]) {
      assert b[k] == s[k];
    }
    forall k | 0 <= k < |n| ensures IsNameChar(n[k]) {
      assert n[k] == s[i + k];
    }
    assert t != [] ==> t[0] == s[j];
  }

  lemma NameOfSplit(s: string, b: string, n: string, t: string)
    requires Split(s, b, n, t)
    ensures var i, j := |b|, |b| + |n|; NameEndsAt(s, i, j) && n == s[i..j] && t == s[j..]
  {
    var i, j := |b|, |b| + |n|;
    SplitPlaces(s, b, n, t);
    forall k | 0 <= k < i ensures s[k] == ' ' || '\t' <= s[k] <= '\r' {
      assert IsSpace(s[k]);
    }
    forall k | i <= k < j ensures '0' <= s[k] <= '9' || 'A' <= s[k] <= 'Z' || 'a' <= s[k] <= 'z' || s[k] == '_' {
      assert IsNameChar(s[k]);
    }
  }

  // Where the name of a described argument is.
  lemma FindName(s: string, r: Scan) returns (i: nat, j: nat)
    requires Describes(r, s) && !(s != [] && s[0] == '*')
    ensures NameEndsAt(s, i, j) && Means(s[i..j], s[j..], r)
  {
    var b, n, t :| Split(s, b, n, t) && Means(n, t, r);
    NameOfSplit(s, b, n, t);
    i, j := |b|, |b| + |n|;
  }

  lemma MeaningAtName(s: string, r: Scan, r': Scan, i: nat, j: nat)
    requires Describes(r, s) && NameEndsAt(s, i, j) && Means(s[i..j], s[j..], r') && !(s != [] && s[0] == '*')
    ensures r == r'
  {
    SplitAtName(s, i, j);
    assert Describes(r', s);
    MeaningUnique(s, r, r');
  }

  /** A star in front, and nothing else, is reported as such. */
  lemma StarArguments(s: string, r: Scan)
    requires Describes(r, s)
    ensures r == StartsWithStar <==> s != [] && s[0] == '*'
  {
    if !(s != [] && s[0] == '*') {
      var i, j := FindName(s, r);
    }
  }

  /** An argument is taken as empty exactly when it holds only blanks. */
  lemma BlankArguments(s: string, r: Scan)
    requires Describes(r, s)
    ensures r == AllBlank <==> forall k :: 0 <= k < |s| ==> s[k] == ' ' || '\t' <= s[k] <= '\r'
  {
    if s != [] && s[0] == '*' {
      assert !(s[0] == ' ' || '\t' <= s[0] <= '\r');
    } else {
      var i, j := FindName(s, r);
      if r == AllBlank {
        assert j == |s| && s[i..j] == [];
      } else if forall k :: 0 <= k < |s| ==> s[k] == ' ' || '\t' <= s[k] <= '\r' {
        var n := |s|;
        assert s[n..n] == [];
        MeaningAtName(s, r, AllBlank, n, n);
      }
    }
  }

  lemma TailAt(s: string, j: nat)
    requires j <= |s|
    ensures if j == |s| then s[j..] == [] else s[j..] != [] && s[j..][0] == s[j] && s[j..][1..] == s[j + 1..]
  {
  }

  // A name at i..j and the separator c behind it, which is none.
  predicate BadShape(s: string, c: char, i: nat, j: nat) {
    NameEndsAt(s, i, j) && j < |s| && s[j] == c && c != ' ' && c != '=' && s[0] != '*'
  }

  /** A separator is reported as invalid exactly when it is the character behind the name, or in its place, and
      neither ' ' nor '='. */
  lemma BadSeparators(s: string, r: Scan, c: char)
    requires Describes(r, s)
    ensures r == BadSeparator(c) <==> exists i: nat, j: nat :: BadShape(s, c, i, j)
  {
    if r == BadSeparator(c) {
      var i, j := FindName(s, r);
      TailAt(s, j);
      assert BadShape(s, c, i, j);
    }
    if i: nat, j: nat :| BadShape(s, c, i, j) {
      TailAt(s, j);
      MeaningAtName(s, r, BadSeparator(c), i, j);
    }
  }

  // A name with nothing behind it, or with a separator and blanks.
  predicate EmptyShape(s: string, name: string, i: nat, j: nat) {
    && NameEndsAt(s, i, j) && name == s[i..j]
    && (if j == |s| then i < j
        else (s[j] == ' ' || s[j] == '=') && forall k :: j < k < |s| ==> s[k] == ' ' || '\t' <= s[k] <= '\r')
  }

  lemma BlankRest(s: string, j: nat)
    requires j < |s|
    ensures HasValue(s[j + 1..], []) <==> forall k :: j < k < |s| ==> s[k] == ' ' || '\t' <= s[k] <= '\r'
  {
    var u := s[j + 1..];
    if blanks, trailing :| Surrounded(u, blanks, [], trailing) {
      SurroundedPlaces(u, blanks, [], trailing);
      forall k | j < k < |s| ensures s[k] == ' ' || '\t' <= s[k] <= '\r' {
        assert IsSpace(u[k - (j + 1)]);
      }
    }
    if forall k :: j < k < |s| ==> s[k] == ' ' || '\t' <= s[k] <= '\r' {
      forall k | 0 <= k < |u| ensures IsSpace(u[k]) {
        assert u[k] == s[j + 1 + k];
      }
      assert Surrounded(u, u, [], []);
    }
  }

  // A name with such a tail means itself and an empty value.
  lemma EmptyTail(s: string, i: nat, j: nat)
    requires NameEndsAt(s, i, j)
    ensures Means(s[i..j], s[j..], Option(s[i..j], [])) <==> EmptyShape(s, s[i..j], i, j)
  {
    TailAt(s, j);
    if j < |s| {
      BlankRest(s, j);
    }
  }

  /** A name comes with an empty value exactly when nothing but a separator and blanks is behind it. */
  lemma EmptyValues(s: string, r: Scan, name: string)
    requires Describes(r, s)
    ensures r == Option(name, []) <==> exists i: nat, j: nat :: EmptyShape(s, name, i, j)
  {
    if r == Option(name, []) {
      var i, j := FindName(s, r);
      NameFound(s, r, i, j);
      EmptyTail(s, i, j);
    }
    if i: nat, j: nat :| EmptyShape(s, name, i, j) {
      EmptyTail(s, i, j);
      MeaningAtName(s, r, Option(name, []), i, j);
    }
  }

  lemma NameFound(s: string, r: Scan, i: nat, j: nat)
    requires i <= j <= |s| && Means(s[i..j], s[j..], r) && r.Option?
    ensures r.name == s[i..j]
  {
  }

  // ---------- The scan ----------

  // The character at i of a string that ends with a terminator.
  function At(s: string, i: nat): char
    requires i <= |s|
  {
    if i < |s| then s[i] else '\0'
  }

  // strndup(&s[start], n)
  function Strndup(s: string, start: nat, n: nat): string
    requires start <= |s|
  {
    if start + n < |s| then s[start..start + n] else s[start..]
  }

  // while (isspace(s[start])) start++
  method SkipSpace(s: string, start0: nat) returns (start: nat)
    requires start0 <= |s|
    ensures start0 <= start <= |s| && AllSpace(s[start0..start]) && !IsSpace(At(s, start))
  {
    start := start0;
    while IsSpace(At(s, start))
      invariant start0 <= start <= |s| && AllSpace(s[start0..start])
      decreases |s| - start
    {
      assert s[start0..start + 1] == s[start0..start] + [s[start]];
      start := start + 1;
    }
  }

  // while (isalnum(s[end]) || s[end] == '_') end++
  method SkipName(s: string, start: nat) returns (end: nat)
    requires start <= |s|
    ensures start <= end <= |s| && AllName(s[start..end]) && !IsNameChar(At(s, end))
  {
    end := start;
    while IsAlnum(At(s, end)) || At(s, end) == '_'
      invariant start <= end <= |s| && AllName(s[start..end])
      decreases |s| - end
    {
      assert s[start..end + 1] == s[start..end] + [s[end]];
      end := end + 1;
    }
  }

  // The value behind the separator at s[at].  When there is none, the search backwards for its end runs
  // past its start, and the unsigned difference that is passed to strndup is huge but harmless.
  method ScanValue(s: string, at: nat) returns (value: string)
    requires CString(s) && |s| < 0x1_0000_0000 && at < |s|
    requires !IsSpace(s[at]) || (0 < at && !IsSpace(s[at - 1]))
    ensures HasValue(s[at + 1..], value)
  {
    var start := SkipSpace(s, at + 1);
    var end := start;
    while At(s, end) != '\0'
      invariant start <= end <= |s|
      decreases |s| - end
    {
      end := end + 1;
    }
    while IsSpace(At(s, end - 1))
      invariant at <= end <= |s| && (end == at ==> 0 < at && !IsSpace(s[at - 1]))
      invariant start < |s| ==> start < end
      invariant AllSpace(s[end..])
      decreases end
    {
      end := end - 1;
    }
    var length := if start <= end then end - start else end - start + 0x1_0000_0000;
    value := Strndup(s, start, length);
    ValueFound(s, at, start, end, value);
  }

  lemma ValueFound(s: string, at: nat, start: nat, end: nat, value: string)
    requires at < start <= |s| && at <= end <= |s| && AllSpace(s[at + 1..start]) && AllSpace(s[end..])
    requires if start < |s| then start < end && !IsSpace(s[start]) && !IsSpace(s[end - 1]) && value == s[start..end]
      else value == []
    ensures HasValue(s[at + 1..], value)
  {
    var blanks, trailing := s[at + 1..start], if start < |s| then s[end..] else [];
    assert s[at + 1..] == blanks + value + trailing;
    assert Surrounded(s[at + 1..], blanks, value, trailing);
  }

  /** The scanning part of rhp_opt_setfromstr. */
  method ScanOption(optstring: string) returns (r: Scan)
    requires CString(optstring) && |optstring| < 0x1_0000_0000
    ensures Describes(r, optstring)
  {
    if At(optstring, 0) == '*' {
      return StartsWithStar;
    }
    var start := SkipSpace(optstring, 0);
    ghost var blanks := optstring[0..start];
    if At(optstring, start) == '\0' {
      assert Split(optstring, blanks, [], []) && Means([], [], AllBlank);
      return AllBlank;
    }
    var end := SkipName(optstring, start);
    var c1 := At(optstring, end);
    var optname := Strndup(optstring, start, end - start);
    ghost var tail := optstring[end..];
    assert Split(optstring, blanks, optname, tail);
    if c1 == ' ' || c1 == '=' {
      var optval := ScanValue(optstring, end);
      assert tail[1..] == optstring[end + 1..];
      assert Means(optname, tail, Option(optname, optval));
      return Option(optname, optval);
    } else if c1 == '\0' {
      assert Means(optname, tail, Option(optname, []));
      return Option(optname, []);
    } else {
      assert Means(optname, tail, BadSeparator(c1));
      return BadSeparator(c1);
    }
  }
}
