/** The string operations the page relies on: `toLowerCase`, `includes` and `join`. */
module Strings {

  /** ASCII lower-casing of one character; every other character is left as it is. */
  function LowerChar(c: char): char
  {
    if 'A' <= c <= 'Z' then (c as int + 32) as char else c
  }

  predicate IsUpper(c: char)
  {
    'A' <= c <= 'Z'
  }

  /** `s.toLowerCase()`, restricted to the ASCII letters. */
  function Lower(s: string): (r: string)
    ensures |r| == |s|
    ensures forall i :: 0 <= i < |r| ==> !IsUpper(r[i])
    ensures forall i :: 0 <= i < |s| && !IsUpper(s[i]) ==> r[i] == s[i]
    ensures forall i :: 0 <= i < |s| && IsUpper(s[i]) ==> r[i] as int == s[i] as int + 32
  {
    seq(|s|, i requires 0 <= i < |s| => LowerChar(s[i]))
  }

  /** Lower-casing twice is lower-casing once. */
  lemma LowerIdempotent(s: string)
    ensures Lower(Lower(s)) == Lower(s)
  {
  }

  predicate IsPrefix(p: string, s: string)
  {
    |p| <= |s| && s[..|p|] == p
  }

  /** `s.includes(sub)`: `sub` occurs somewhere in `s` as a contiguous block. */
  predicate Contains(s: string, sub: string)
    ensures Contains(s, sub) ==> |sub| <= |s|
    decreases |s|
  {
    IsPrefix(sub, s) || (|s| > 0 && Contains(s[1..], sub))
  }

  /** Reference definition of an occurrence of `sub` in `s` at offset `i`. */
  ghost predicate OccursAt(s: string, sub: string, i: int)
  {
    0 <= i && i + |sub| <= |s| && s[i..i + |sub|] == sub
  }

  /** The recursive `Contains` agrees with the offset-based definition. */
  lemma {:induction false} ContainsIffOccurs(s: string, sub: string)
    ensures Contains(s, sub) <==> exists i :: OccursAt(s, sub, i)
    decreases |s|
  {
    if IsPrefix(sub, s) {
      assert OccursAt(s, sub, 0);
    } else if |s| > 0 {
      ContainsIffOccurs(s[1..], sub);
      if Contains(s[1..], sub) {
        var j :| OccursAt(s[1..], sub, j);
        assert s[1..][j..j + |sub|] == s[j + 1..j + 1 + |sub|];
        assert OccursAt(s, sub, j + 1);
      } else {
        forall i | OccursAt(s, sub, i)
          ensures false
        {
          if i > 0 {
            assert s[1..][i - 1..i - 1 + |sub|] == s[i..i + |sub|];
            assert OccursAt(s[1..], sub, i - 1);
          }
        }
      }
    } else {
      forall i | OccursAt(s, sub, i)
        ensures false
      {
      }
    }
  }

  /** The empty string occurs in every string, as `"abc".includes("")` does. */
  lemma ContainsEmpty(s: string)
    ensures Contains(s, "")
  {
    assert s[..0] == "";
  }

  /** A string whose first character differs from that of `sub` contains `sub` only in its tail. */
  lemma NotContainsStep(s: string, sub: string)
    requires |s| > 0 && |sub| > 0 && s[0] != sub[0]
    requires !Contains(s[1..], sub)
    ensures !Contains(s, sub)
  {
    if |sub| <= |s| {
      assert s[..|sub|][0] == s[0];
    }
  }

  /** Whatever `b` contains, `a + b` contains too. */
  lemma {:induction false} ContainsInSuffix(a: string, b: string, sub: string)
    requires Contains(b, sub)
    ensures Contains(a + b, sub)
    decreases |a|
  {
    if a == [] {
      assert a + b == b;
    } else {
      assert (a + b)[1..] == a[1..] + b;
      ContainsInSuffix(a[1..], b, sub);
    }
  }

  /** A string contains each of its prefixes. */
  lemma ContainsPrefix(sub: string, rest: string)
    ensures Contains(sub + rest, sub)
  {
    assert (sub + rest)[..|sub|] == sub;
  }

  /** `xs.join(sep)`: the strings of `xs` with `sep` between neighbours. */
  function Join(xs: seq<string>, sep: string): (r: string)
    ensures xs == [] ==> r == ""
    ensures |xs| == 1 ==> r == xs[0]
  {
    if xs == [] then ""
    else if |xs| == 1 then xs[0]
    else xs[0] + sep + Join(xs[1..], sep)
  }

  /** Every joined string can be found in the result of the join. */
  lemma {:induction false} JoinContainsEach(xs: seq<string>, sep: string, i: int)
    requires 0 <= i < |xs|
    ensures Contains(Join(xs, sep), xs[i])
  {
    if |xs| == 1 {
      ContainsPrefix(xs[0], "");
      assert xs[0] + "" == xs[0];
    } else if i == 0 {
      assert Join(xs, sep) == xs[0] + (sep + Join(xs[1..], sep));
      ContainsPrefix(xs[0], sep + Join(xs[1..], sep));
    } else {
      JoinContainsEach(xs[1..], sep, i - 1);
      ContainsInSuffix(xs[0] + sep, Join(xs[1..], sep), xs[i]);
    }
  }

  /** Appending an element to a non-empty list appends the separator and that element to
      the joined string: the separator stands exactly between neighbours. */
  lemma {:induction false} JoinAppend(xs: seq<string>, x: string, sep: string)
    requires xs != []
    ensures Join(xs + [x], sep) == Join(xs, sep) + sep + x
  {
    if |xs| == 1 {
      assert xs + [x] == [xs[0], x];
      assert [xs[0], x][1..] == [x];
    } else {
      assert (xs + [x])[1..] == xs[1..] + [x];
      JoinAppend(xs[1..], x, sep);
    }
  }

  /** The join of three strings, as `["a", "b", "c"].join(", ")` gives "a, b, c". */
  lemma JoinExample()
    ensures Join(["a", "b", "c"], ", ") == "a, b, c"
  {
    assert ["a", "b", "c"][1..] == ["b", "c"];
    assert ["b", "c"][1..] == ["c"];
  }
}
