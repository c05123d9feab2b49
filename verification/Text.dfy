/**
 * The two Python string operations the handlers use to take object keys and
 * file names apart and to assemble the compiled document:
 * `s.split(c)` for a one-character separator and `sep.join(parts)`.
 */
module Text {

  /** `s.split(c)`: the pieces of `s` between the occurrences of `c`, in order. */
  function Split(s: string, c: char): (parts: seq<string>)
    ensures |parts| >= 1
    ensures forall i :: 0 <= i < |parts| ==> c !in parts[i]
    decreases |s|
  {
    if |s| == 0 then [""]
    else
      var rest := Split(s[1..], c);
      if s[0] == c then [""] + rest
      else [[s[0]] + rest[0]] + rest[1..]
  }

  /** `sep.join(parts)`: the parts with one `sep` between each two neighbours. */
  function Join(sep: string, parts: seq<string>): (r: string)
    ensures |parts| == 0 ==> r == ""
    ensures |parts| > 0 ==> parts[0] <= r
    decreases |parts|
  {
    if |parts| == 0 then ""
    else if |parts| == 1 then parts[0]
    else parts[0] + sep + Join(sep, parts[1..])
  }

  /** A join holds no character that neither the separator nor any part holds. */
  lemma {:induction false} JoinWithout(sep: string, parts: seq<string>, d: char)
    requires d !in sep && forall i :: 0 <= i < |parts| ==> d !in parts[i]
    ensures d !in Join(sep, parts)
    decreases |parts|
  {
    if |parts| > 1 {
      JoinWithout(sep, parts[1..], d);
    }
  }

  /** Joining the pieces of a split with the separator gives the string back. */
  lemma {:induction false} JoinSplit(s: string, c: char)
    ensures Join([c], Split(s, c)) == s
    decreases |s|
  {
    if |s| > 0 {
      var rest := Split(s[1..], c);
      JoinSplit(s[1..], c);
      if s[0] == c {
        assert Split(s, c)[1..] == rest;
        assert s == [c] + s[1..];
      } else if |rest| == 1 {
        assert s == [s[0]] + s[1..];
      } else {
        var parts := Split(s, c);
        assert parts[1..] == rest[1..];
        assert Join([c], rest) == rest[0] + [c] + Join([c], rest[1..]);
        assert s == [s[0]] + s[1..];
      }
    }
  }

  /** Every piece of a split is made of characters of the split string. */
  lemma {:induction false} SplitPieceChars(s: string, c: char, i: nat, d: char)
    requires i < |Split(s, c)| && d in Split(s, c)[i]
    ensures d in s
    decreases |s|
  {
    var rest := Split(s[1..], c);
    if s[0] == c {
      SplitPieceChars(s[1..], c, i - 1, d);
    } else if i == 0 {
      if d != s[0] {
        SplitPieceChars(s[1..], c, 0, d);
      }
    } else {
      SplitPieceChars(s[1..], c, i, d);
    }
    assert s == [s[0]] + s[1..];
  }

  /** A character absent from the split string is absent from every piece. */
  lemma SplitPiecesWithout(s: string, c: char, d: char)
    requires d !in s
    ensures forall i :: 0 <= i < |Split(s, c)| ==> d !in Split(s, c)[i]
  {
    forall i | 0 <= i < |Split(s, c)| ensures d !in Split(s, c)[i] {
      if d in Split(s, c)[i] {
        SplitPieceChars(s, c, i, d);
      }
    }
  }

  /** A string without the separator splits into itself alone. */
  lemma {:induction false} SplitWithout(s: string, c: char)
    requires c !in s
    ensures Split(s, c) == [s]
    decreases |s|
  {
    if |s| > 0 {
      assert c !in s[1..];
      SplitWithout(s[1..], c);
      assert s == [s[0]] + s[1..];
    }
  }

  /** Splitting `a + b` where `a` has no separator glues `a` onto the first piece of `b`. */
  lemma {:induction false} SplitGlue(a: string, b: string, c: char)
    requires c !in a
    ensures Split(a + b, c) == [a + Split(b, c)[0]] + Split(b, c)[1..]
    decreases |a|
  {
    if |a| > 0 {
      assert (a + b)[1..] == a[1..] + b;
      assert c !in a[1..];
      SplitGlue(a[1..], b, c);
      assert [a[0]] + (a[1..] + Split(b, c)[0]) == a + Split(b, c)[0];
    } else {
      assert a + b == b;
      assert a + Split(b, c)[0] == Split(b, c)[0];
      assert Split(b, c) == [Split(b, c)[0]] + Split(b, c)[1..];
    }
  }

  /** Splitting `a + [c] + b` where `a` has no separator: `a` is the first piece. */
  lemma SplitAtFirst(a: string, b: string, c: char)
    requires c !in a
    ensures Split(a + [c] + b, c) == [a] + Split(b, c)
  {
    SplitGlue(a, [c] + b, c);
    assert ([c] + b)[1..] == b;
    assert Split([c] + b, c) == [""] + Split(b, c);
    assert a + "" == a;
    assert a + [c] + b == a + ([c] + b);
  }

  /** Splitting a join of separator-free pieces gives the pieces back. */
  lemma {:induction false} SplitJoin(parts: seq<string>, c: char)
    requires |parts| >= 1
    requires forall i :: 0 <= i < |parts| ==> c !in parts[i]
    ensures Split(Join([c], parts), c) == parts
    decreases |parts|
  {
    if |parts| == 1 {
      SplitWithout(parts[0], c);
    } else {
      SplitJoin(parts[1..], c);
      SplitAtFirst(parts[0], Join([c], parts[1..]), c);
      assert parts == [parts[0]] + parts[1..];
    }
  }

  /**
   * The first piece of a split is the text before the first separator: it is
   * a prefix of `s` without the separator, and it is either all of `s` (when
   * there is no separator, and then it is the only piece) or followed by one.
   */
  lemma {:induction false} SplitHead(s: string, c: char)
    ensures var h := Split(s, c)[0];
      h <= s && c !in h &&
      (|Split(s, c)| == 1 <==> c !in s) &&
      (c in s ==> |h| < |s| && s[|h|] == c) &&
      (c !in s ==> h == s)
    decreases |s|
  {
    if |s| > 0 {
      SplitHead(s[1..], c);
      if s[0] != c {
        assert c in s <==> c in s[1..] by {
          assert s == [s[0]] + s[1..];
        }
      }
    }
  }
}
