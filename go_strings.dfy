/** Go strings as byte sequences, and the two functions of Go's `strings`
    package the resolver uses: `Split` around a one-byte separator and
    `Join`. */
module GoStrings {

  /** One byte of a Go string. */
  type Byte = x: int | 0 <= x < 256

  /** A Go `string`: an arbitrary sequence of bytes. */
  type Str = seq<Byte>

  /** Number of occurrences of `c` in `s`. */
  function Count(s: Str, c: Byte): nat
    decreases |s|
  {
    if |s| == 0 then 0 else (if s[0] == c then 1 else 0) + Count(s[1..], c)
  }

  lemma {:induction false} CountAppend(a: Str, b: Str, c: Byte)
    ensures Count(a + b, c) == Count(a, c) + Count(b, c)
    decreases |a|
  {
    if |a| == 0 {
      assert a + b == b;
    } else {
      assert (a + b)[1..] == a[1..] + b;
      CountAppend(a[1..], b, c);
    }
  }

  lemma {:induction false} CountAbsent(s: Str, c: Byte)
    ensures Count(s, c) == 0 <==> c !in s
    decreases |s|
  {
    if |s| > 0 {
      CountAbsent(s[1..], c);
      assert s == [s[0]] + s[1..];
    }
  }

  /** `strings.Split(s, sep)` for a one-byte separator: the fields of `s`
      between consecutive occurrences of `sep`, empty fields included; the
      empty string splits into one empty field. */
  function Split(s: Str, sep: Byte): (r: seq<Str>)
    ensures |r| == Count(s, sep) + 1
    ensures forall i :: 0 <= i < |r| ==> sep !in r[i]
    decreases |s|
  {
    if |s| == 0 then [[]]
    else
      var rest := Split(s[1..], sep);
      if s[0] == sep then [[]] + rest
      else [[s[0]] + rest[0]] + rest[1..]
  }

  /** `strings.Join(parts, sep)`: the parts with one separator between
      neighbours; no parts give the empty string. */
  function Join(parts: seq<Str>, sep: Byte): (r: Str)
    ensures |parts| == 0 ==> r == []
    ensures |parts| >= 1 && (forall i :: 0 <= i < |parts| ==> sep !in parts[i]) ==> Count(r, sep) == |parts| - 1
    decreases |parts|
  {
    if |parts| == 0 then []
    else if |parts| == 1 then CountAbsent(parts[0], sep); parts[0]
    else
      var rest := Join(parts[1..], sep);
      CountAbsent(parts[0], sep);
      CountAppend(parts[0], [sep], sep);
      CountAppend(parts[0] + [sep], rest, sep);
      assert Count([sep], sep) == 1;
      parts[0] + [sep] + rest
  }

  /** Joining the fields of a split gives back the string. */
  lemma {:induction false} JoinSplit(s: Str, sep: Byte)
    ensures Join(Split(s, sep), sep) == s
    decreases |s|
  {
    if |s| > 0 {
      var rest := Split(s[1..], sep);
      JoinSplit(s[1..], sep);
      if s[0] == sep {
        assert Split(s, sep) == [[]] + rest;
        assert ([[]] + rest)[1..] == rest;
        assert s == [sep] + s[1..];
      } else {
        var r := [[s[0]] + rest[0]] + rest[1..];
        assert Split(s, sep) == r;
        if |rest| == 1 {
          assert rest == [rest[0]];
        } else {
          assert r[1..] == rest[1..];
          assert Join(rest, sep) == rest[0] + [sep] + Join(rest[1..], sep);
        }
        assert s == [s[0]] + s[1..];
      }
    }
  }

  /** Splitting a join of separator-free parts gives back the parts. */
  lemma {:induction false} SplitJoin(parts: seq<Str>, sep: Byte)
    requires |parts| >= 1
    requires forall i :: 0 <= i < |parts| ==> sep !in parts[i]
    ensures Split(Join(parts, sep), sep) == parts
    decreases |parts|
  {
    if |parts| == 1 {
      SplitFree(parts[0], sep);
    } else {
      SplitJoin(parts[1..], sep);
      SplitPrefix(parts[0], Join(parts[1..], sep), sep);
      assert [parts[0]] + parts[1..] == parts;
    }
  }

  /** A separator-free string is one field. */
  lemma {:induction false} SplitFree(s: Str, sep: Byte)
    requires sep !in s
    ensures Split(s, sep) == [s]
    decreases |s|
  {
    if |s| > 0 {
      SplitFree(s[1..], sep);
      assert s == [s[0]] + s[1..];
    }
  }

  /** A separator-free prefix followed by a separator becomes the first
      field, and the rest splits as before. */
  lemma {:induction false} SplitPrefix(p: Str, q: Str, sep: Byte)
    requires sep !in p
    ensures Split(p + [sep] + q, sep) == [p] + Split(q, sep)
    decreases |p|
  {
    var s := p + [sep] + q;
    if |p| == 0 {
      assert s == [sep] + q;
      assert s[1..] == q;
    } else {
      assert s[0] == p[0];
      assert s[1..] == p[1..] + [sep] + q;
      SplitPrefix(p[1..], q, sep);
      assert p == [p[0]] + p[1..];
    }
  }

  /** A string with exactly two fields is its first field, the separator
      and its second field. */
  lemma SplitTwo(s: Str, sep: Byte)
    requires |Split(s, sep)| == 2
    ensures s == Split(s, sep)[0] + [sep] + Split(s, sep)[1]
  {
    JoinSplit(s, sep);
    var r := Split(s, sep);
    assert r[1..] == [r[1]];
  }
}
