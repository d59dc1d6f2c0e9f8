/** Options, results, instants, and the Go string functions the modelled files share. */
module Text {

  datatype Option<+T> = None | Some(value: T)

  datatype Result<+T> = Ok(value: T) | Err(error: string)

  /** Nanoseconds since Go's zero time. */
  type Instant = nat

  /** strings.Split with a one-element separator. */
  function Split<T(==)>(s: seq<T>, sep: T): (parts: seq<seq<T>>)
    ensures |parts| > 0
  {
    if s == [] then [[]] else
      var rest := Split(s[1..], sep);
      if s[0] == sep then [[]] + rest else [[s[0]] + rest[0]] + rest[1..]
  }

  /** strings.Join with a one-element separator. */
  function Join<T>(parts: seq<seq<T>>, sep: T): seq<T> {
    if parts == [] then []
    else if |parts| == 1 then parts[0]
    else parts[0] + [sep] + Join(parts[1..], sep)
  }

  lemma {:induction false} SplitPrefix<T>(a: seq<T>, b: seq<T>, sep: T)
    requires sep !in a
    ensures Split(a + [sep] + b, sep) == [a] + Split(b, sep)
    ensures Split(a, sep) == [a]
  {
    if a == [] {
      assert ([] + [sep] + b)[1..] == b;
    } else {
      assert (a + [sep] + b)[1..] == a[1..] + [sep] + b;
      SplitPrefix(a[1..], b, sep);
      assert [a[0]] + a[1..] == a;
    }
  }

  lemma SplitTwo<T>(a: seq<T>, b: seq<T>, sep: T)
    requires sep !in a && sep !in b
    ensures Split(a + [sep] + b, sep) == [a, b]
  {
    SplitPrefix(a, b, sep);
    SplitPrefix(b, [], sep);
  }

  lemma SplitThree<T>(a: seq<T>, b: seq<T>, c: seq<T>, sep: T)
    requires sep !in a && sep !in b && sep !in c
    ensures Split(a + [sep] + (b + [sep] + c), sep) == [a, b, c]
  {
    SplitPrefix(a, b + [sep] + c, sep);
    SplitTwo(b, c, sep);
  }

  lemma {:induction false} JoinSnoc<T>(parts: seq<seq<T>>, last: seq<T>, sep: T)
    ensures Join(parts + [last], sep) == if parts == [] then last else Join(parts, sep) + [sep] + last
  {
    if parts == [] {
      assert parts + [last] == [last];
    } else {
      assert (parts + [last])[1..] == parts[1..] + [last];
      JoinSnoc(parts[1..], last, sep);
    }
  }

  ghost predicate Free<T>(parts: seq<seq<T>>, sep: T) {
    forall i :: 0 <= i < |parts| ==> sep !in parts[i]
  }

  lemma FreeAppend<T>(a: seq<seq<T>>, b: seq<seq<T>>, sep: T)
    requires Free(a, sep) && Free(b, sep)
    ensures Free(a + b, sep)
  {
  }

  /** Splitting undoes joining when no part contains the separator. */
  lemma {:induction false} SplitJoin<T>(parts: seq<seq<T>>, sep: T)
    requires parts != [] && Free(parts, sep)
    ensures Split(Join(parts, sep), sep) == parts
  {
    if |parts| == 1 {
      SplitPrefix(parts[0], [], sep);
    } else {
      var joined := Join(parts[1..], sep);
      assert Split(joined, sep) == parts[1..] by {
        SplitJoin(parts[1..], sep);
      }
      SplitPrefix(parts[0], joined, sep);
      assert [parts[0]] + parts[1..] == parts;
    }
  }

  /** The part before the first separator. */
  function Before<T(==)>(s: seq<T>, sep: T): (r: seq<T>)
    ensures r <= s && sep !in r
    ensures sep !in s ==> r == s
    ensures sep in s ==> |r| < |s| && s[|r|] == sep
  {
    if s == [] || s[0] == sep then [] else [s[0]] + Before(s[1..], sep)
  }

  /** strings.SplitN(s, sep, 2): the parts around the first separator, if there is one. */
  function Cut<T(==)>(s: seq<T>, sep: T): (r: Option<(seq<T>, seq<T>)>)
    ensures r.Some? <==> sep in s
    ensures r.Some? ==> s == r.value.0 + [sep] + r.value.1 && sep !in r.value.0
  {
    if sep in s then
      var a := Before(s, sep);
      Some((a, s[|a| + 1..]))
    else
      None
  }

  lemma {:induction false} BeforeAt<T>(a: seq<T>, b: seq<T>, sep: T)
    requires sep !in a
    ensures Before(a + [sep] + b, sep) == a
  {
    var s := a + [sep] + b;
    if a == [] {
      assert s[0] == sep;
    } else {
      assert s[1..] == a[1..] + [sep] + b && s[0] == a[0];
      BeforeAt(a[1..], b, sep);
    }
  }

  lemma CutAt<T>(a: seq<T>, b: seq<T>, sep: T)
    requires sep !in a
    ensures Cut(a + [sep] + b, sep) == Some((a, b))
  {
    BeforeAt(a, b, sep);
    assert (a + [sep] + b)[|a|] == sep;
    assert (a + [sep] + b)[|a| + 1..] == b;
  }

  /** unicode.IsSpace. */
  predicate IsSpace(c: char) {
    var n := c as int;
    || 0x09 <= n <= 0x0D || n == 0x20 || n == 0x85 || n == 0xA0 || n == 0x1680
    || 0x2000 <= n <= 0x200A || n == 0x2028 || n == 0x2029 || n == 0x202F || n == 0x205F || n == 0x3000
  }

  function TrimLeft(s: string): (r: string)
    ensures |r| <= |s|
  {
    if s != "" && IsSpace(s[0]) then TrimLeft(s[1..]) else s
  }

  function TrimRight(s: string): (r: string)
    ensures |r| <= |s|
  {
    if s != "" && IsSpace(s[|s| - 1]) then TrimRight(s[..|s| - 1]) else s
  }

  /** strings.TrimSpace. */
  function TrimSpace(s: string): (r: string)
    ensures |r| <= |s|
  {
    TrimRight(TrimLeft(s))
  }

  /** Among ASCII characters: blank, tab, and the line and page breaks. */
  lemma AsciiSpace(c: char)
    requires c as int < 128
    ensures IsSpace(c) <==> c in "\t\n\U{0B}\U{0C}\r "
  {
  }

  predicate AllSpace(s: string) {
    forall i :: 0 <= i < |s| ==> IsSpace(s[i])
  }

  /** No space at either end. */
  predicate Tight(s: string) {
    s == "" || (!IsSpace(s[0]) && !IsSpace(s[|s| - 1]))
  }

  lemma {:induction false} TrimLeftDrops(a: string, s: string)
    requires AllSpace(a)
    ensures TrimLeft(a + s) == TrimLeft(s)
  {
    if a == "" {
      assert a + s == s;
    } else {
      assert (a + s)[1..] == a[1..] + s;
      TrimLeftDrops(a[1..], s);
    }
  }

  lemma {:induction false} TrimRightDrops(s: string, b: string)
    requires AllSpace(b)
    ensures TrimRight(s + b) == TrimRight(s)
  {
    if b == "" {
      assert s + b == s;
    } else {
      assert (s + b)[..|s + b| - 1] == s + b[..|b| - 1];
      TrimRightDrops(s, b[..|b| - 1]);
    }
  }

  /** Trimming takes off exactly the space around the rest. */
  lemma TrimSpaceTo(a: string, t: string, b: string)
    requires AllSpace(a) && AllSpace(b) && Tight(t)
    ensures TrimSpace(a + t + b) == t
  {
    assert a + t + b == a + (t + b);
    TrimLeftDrops(a, t + b);
    if t == "" {
      assert "" + b == b && b + "" == b;
      TrimLeftDrops(b, "");
    } else {
      TrimRightDrops(t, b);
    }
  }

  function Lower(c: char): char {
    if 'A' <= c <= 'Z' then (c as int + 32) as char else c
  }

  /** Two characters fold alike exactly when they are equal or the two cases of one letter. */
  lemma FoldIff(c: char, d: char)
    ensures Lower(c) == Lower(d) <==>
              || c == d
              || ('A' <= c <= 'Z' && d as int == c as int + 0x20)
              || ('A' <= d <= 'Z' && c as int == d as int + 0x20)
  {
  }

  /** strings.EqualFold on ASCII: equal up to the case of letters (section 2.3.3 of RFC 1035). */
  predicate EqualFold(a: string, b: string) {
    |a| == |b| && forall i :: 0 <= i < |a| ==> Lower(a[i]) == Lower(b[i])
  }
}
