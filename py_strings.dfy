/** The handful of Python string operations the scoring function relies on:
    `needle in hay` (a substring test), `s.replace(pat, "")`, `s.split(sep)`
    and `any(t in hay for t in tokens)`, each written out as a recursive
    function. `Contains` and `AnyIn` are proved equal to a quantified reference
    definition, `Split` is inverted by `Join`, and `Remove` is pinned down by
    what it does to a string without the pattern (`RemoveAbsent`) and to the
    first occurrence of the pattern (`RemoveAtFirst`). */
module PyStrings {

  /** `p` is a prefix of `s`. */
  predicate StartsWith(s: string, p: string) {
    |p| <= |s| && s[..|p|] == p
  }

  /** Python's `needle in hay` on strings: true when `needle` occurs somewhere
      in `hay`; the empty string occurs in every string. */
  predicate Contains(hay: string, needle: string)
    ensures Contains(hay, needle) ==> |needle| <= |hay|
    ensures needle == "" ==> Contains(hay, needle)
    decreases |hay|
  {
    StartsWith(hay, needle) || (|hay| > 0 && Contains(hay[1..], needle))
  }

  /** Reference definition of an occurrence: `needle` sits at offset `i`. */
  ghost predicate OccursAt(hay: string, needle: string, i: int) {
    0 <= i && i + |needle| <= |hay| && hay[i..i + |needle|] == needle
  }

  /** Where the scan finds the needle, it occurs at some offset. */
  lemma {:induction false} ContainsOccurs(hay: string, needle: string)
    requires Contains(hay, needle)
    ensures exists i :: OccursAt(hay, needle, i)
    decreases |hay|
  {
    if StartsWith(hay, needle) {
      assert OccursAt(hay, needle, 0);
    } else {
      var tail := hay[1..];
      ContainsOccurs(tail, needle);
      var i :| OccursAt(tail, needle, i);
      assert hay[i + 1..i + 1 + |needle|] == tail[i..i + |needle|];
      assert OccursAt(hay, needle, i + 1);
    }
  }

  /** Where the needle occurs at offset `i`, the scan finds it. */
  lemma {:induction false} OccursContains(hay: string, needle: string, i: int)
    requires OccursAt(hay, needle, i)
    ensures Contains(hay, needle)
    decreases i
  {
    if i == 0 {
      assert StartsWith(hay, needle);
    } else {
      assert hay[1..][i - 1..i - 1 + |needle|] == hay[i..i + |needle|];
      OccursContains(hay[1..], needle, i - 1);
    }
  }

  /** The scanning definition of `in` agrees with "there is an offset where the
      needle occurs", in both directions. */
  lemma ContainsIffOccurs(hay: string, needle: string)
    ensures Contains(hay, needle) <==> exists i :: OccursAt(hay, needle, i)
  {
    if Contains(hay, needle) {
      ContainsOccurs(hay, needle);
    }
    if i :| OccursAt(hay, needle, i) {
      OccursContains(hay, needle, i);
    }
  }

  /** Every character of a substring is a character of the string it occurs in. */
  lemma {:induction false} ContainsKeepsChars(hay: string, needle: string, c: char)
    requires Contains(hay, needle) && c in needle
    ensures c in hay
    decreases |hay|
  {
    if StartsWith(hay, needle) {
      assert needle == hay[..|needle|];
    } else {
      ContainsKeepsChars(hay[1..], needle, c);
    }
  }

  /** A needle holding a character the string lacks does not occur in it. */
  lemma NotContainsByChar(hay: string, needle: string, c: char)
    requires c in needle && c !in hay
    ensures !Contains(hay, needle)
  {
    if Contains(hay, needle) {
      ContainsKeepsChars(hay, needle, c);
    }
  }

  /** A string occurs in any string that holds it, wherever it stands. */
  lemma {:induction false} ContainsInside(pre: string, needle: string, post: string)
    ensures Contains(pre + needle + post, needle)
    decreases |pre|
  {
    if pre == [] {
      assert pre + needle + post == needle + post;
      assert (needle + post)[..|needle|] == needle;
    } else {
      ContainsInside(pre[1..], needle, post);
      assert (pre + needle + post)[1..] == pre[1..] + needle + post;
    }
  }

  /** Python's `s.replace(pat, "")`: one left-to-right scan that deletes every
      non-overlapping occurrence of `pat`. The text that remains is not scanned
      again, so `"refrefuses_uses_"` becomes `"refuses_"`. */
  function Remove(s: string, pat: string): (r: string)
    requires pat != ""
    ensures |r| <= |s|
    ensures forall c :: c in r ==> c in s
    decreases |s|
  {
    if StartsWith(s, pat) then Remove(s[|pat|..], pat)
    else if s == [] then []
    else [s[0]] + Remove(s[1..], pat)
  }

  /** A string in which `pat` does not occur is left as it is. */
  lemma {:induction false} RemoveAbsent(s: string, pat: string)
    requires pat != "" && !Contains(s, pat)
    ensures Remove(s, pat) == s
    decreases |s|
  {
    if s != [] {
      RemoveAbsent(s[1..], pat);
    }
  }

  /** A leading occurrence of `pat` is deleted and the scan resumes after it. */
  lemma RemoveLeading(pat: string, s: string)
    requires pat != ""
    ensures Remove(pat + s, pat) == Remove(s, pat)
  {
    assert StartsWith(pat + s, pat);
    assert (pat + s)[|pat|..] == s;
  }

  /** When no occurrence of `pat` starts inside `a`, none starts at the head of
      `a + pat + b`, and none starts inside what follows the head of `a`. */
  lemma NoEarlierOccurrence(a: string, pat: string, b: string)
    requires pat != "" && a != [] && !Contains(a + pat[..|pat| - 1], pat)
    ensures !StartsWith(a + pat + b, pat)
    ensures !Contains(a[1..] + pat[..|pat| - 1], pat)
  {
    var x := a + pat[..|pat| - 1];
    assert !StartsWith(x, pat);
    assert (a + pat + b)[..|pat|] == x[..|pat|];
    assert x[1..] == a[1..] + pat[..|pat| - 1];
  }

  /** A head that does not start an occurrence is kept, and the scan goes on
      after it. */
  lemma RemoveKeepsHead(a: string, pat: string, b: string)
    requires pat != "" && a != [] && !StartsWith(a + pat + b, pat)
    requires Remove(a[1..] + pat + b, pat) == a[1..] + Remove(b, pat)
    ensures Remove(a + pat + b, pat) == a + Remove(b, pat)
  {
    var s, r := a + pat + b, Remove(b, pat);
    assert s[1..] == a[1..] + pat + b;
    assert Remove(s, pat) == [a[0]] + (a[1..] + r);
    assert [a[0]] + (a[1..] + r) == a + r;
  }

  /** The scan deletes the first occurrence of `pat`: text before it that
      holds no occurrence, not even one reaching into `pat` itself, is kept,
      the occurrence is dropped and the scan goes on after it. With
      RemoveAbsent this fixes Remove on every string. */
  lemma {:induction false} RemoveAtFirst(a: string, pat: string, b: string)
    requires pat != "" && !Contains(a + pat[..|pat| - 1], pat)
    ensures Remove(a + pat + b, pat) == a + Remove(b, pat)
    decreases |a|
  {
    if a == [] {
      assert a + pat + b == pat + b;
      RemoveLeading(pat, b);
    } else {
      NoEarlierOccurrence(a, pat, b);
      RemoveAtFirst(a[1..], pat, b);
      RemoveKeepsHead(a, pat, b);
    }
  }

  /** One pass only: when deleting the first occurrence of `pat` brings the
      letters around it together into a new occurrence (`a + b == pat`), the
      new occurrence stays, because the scan does not look again at text it
      has passed. */
  lemma SinglePass(a: string, pat: string, b: string)
    requires pat != "" && a + b == pat
    requires !Contains(a + pat[..|pat| - 1], pat) && !Contains(b, pat)
    ensures Remove(a + pat + b, pat) == pat
  {
    RemoveAtFirst(a, pat, b);
    RemoveAbsent(b, pat);
  }

  /** "refrefuses_uses_", that is "ref" + "refuses_" + "uses_", is such a
      string: it becomes "refuses_". */
  lemma RefRefusesUses(a: string, pat: string, b: string)
    requires a == "ref" && pat == "refuses_" && b == "uses_"
    ensures a + b == pat && Remove(a + pat + b, pat) == pat
  {
    NotContainsByChar(a + pat[..|pat| - 1], pat, '_');
    NotContainsByChar(b, pat, 'r');
    SinglePass(a, pat, b);
  }

  /** A character that does not appear in `pat` survives the deletion. */
  lemma {:induction false} RemoveKeepsOtherChars(s: string, pat: string, c: char)
    requires pat != "" && c in s && c !in pat
    ensures c in Remove(s, pat)
    decreases |s|
  {
    if StartsWith(s, pat) {
      var k :| 0 <= k < |s| && s[k] == c;
      assert k >= |pat|;
      assert s[|pat|..][k - |pat|] == c;
      RemoveKeepsOtherChars(s[|pat|..], pat, c);
    } else if s[0] != c {
      var k :| 0 <= k < |s| && s[k] == c;
      assert s[1..][k - 1] == c;
      RemoveKeepsOtherChars(s[1..], pat, c);
    }
  }

  /** Python's `s.split(sep)` with a one-character separator: the pieces between
      separators, always at least one, empty pieces included (`"".split("+")` is
      `[""]`, `"a+".split("+")` is `["a", ""]`). */
  function Split(s: string, sep: char): (r: seq<string>)
    ensures |r| >= 1
    ensures forall t :: t in r ==> sep !in t
    decreases |s|
  {
    if s == [] then [""]
    else
      var rest := Split(s[1..], sep);
      if s[0] == sep then [""] + rest
      else [[s[0]] + rest[0]] + rest[1..]
  }

  /** Python's `sep.join(ts)`, the inverse of Split. */
  function Join(ts: seq<string>, sep: char): string
    requires |ts| >= 1
    decreases |ts|
  {
    if |ts| == 1 then ts[0] else ts[0] + [sep] + Join(ts[1..], sep)
  }

  /** Joining the pieces of a split gives back the original string. */
  lemma {:induction false} JoinSplit(s: string, sep: char)
    ensures Join(Split(s, sep), sep) == s
    decreases |s|
  {
    if s != [] {
      var rest := Split(s[1..], sep);
      JoinSplit(s[1..], sep);
      if s[0] == sep {
        assert Split(s, sep)[1..] == rest;
      } else if |rest| == 1 {
        assert Split(s, sep) == [[s[0]] + rest[0]];
      } else {
        assert Split(s, sep)[1..] == rest[1..];
        assert Join(rest, sep) == rest[0] + [sep] + Join(rest[1..], sep);
        assert s == [s[0]] + s[1..];
      }
    }
  }

  /** Splitting a piece that holds no separator, with more text after one. */
  lemma {:induction false} SplitPiece(t: string, sep: char, rest: string)
    requires sep !in t
    ensures Split(t + [sep] + rest, sep) == [t] + Split(rest, sep)
    decreases |t|
  {
    if t == [] {
      assert t + [sep] + rest == [sep] + rest;
      assert ([sep] + rest)[1..] == rest;
    } else {
      SplitPiece(t[1..], sep, rest);
      assert (t + [sep] + rest)[1..] == t[1..] + [sep] + rest;
      assert [t[0]] + t[1..] == t;
    }
  }

  /** A string without a separator splits into itself alone. */
  lemma {:induction false} SplitWhole(t: string, sep: char)
    requires sep !in t
    ensures Split(t, sep) == [t]
    decreases |t|
  {
    if t != [] {
      SplitWhole(t[1..], sep);
      assert [t[0]] + t[1..] == t;
    }
  }

  /** Splitting a join of separator-free pieces gives back the pieces. */
  lemma {:induction false} SplitJoin(ts: seq<string>, sep: char)
    requires |ts| >= 1
    requires forall t :: t in ts ==> sep !in t
    ensures Split(Join(ts, sep), sep) == ts
    decreases |ts|
  {
    if |ts| == 1 {
      SplitWhole(ts[0], sep);
    } else {
      assert ts[0] in ts;
      assert forall t :: t in ts[1..] ==> t in ts;
      SplitJoin(ts[1..], sep);
      SplitPiece(ts[0], sep, Join(ts[1..], sep));
      assert [ts[0]] + ts[1..] == ts;
    }
  }

  /** Python's `any(t in hay for t in tokens)`: some token occurs in `hay`. */
  predicate AnyIn(tokens: seq<string>, hay: string)
    ensures AnyIn(tokens, hay) ==> |tokens| > 0
    ensures "" in tokens ==> AnyIn(tokens, hay)
    decreases |tokens|
  {
    |tokens| > 0 && (Contains(hay, tokens[0]) || AnyIn(tokens[1..], hay))
  }

  /** The recursive scan agrees with "some token occurs in `hay`". */
  lemma {:induction false} AnyInIff(tokens: seq<string>, hay: string)
    ensures AnyIn(tokens, hay) <==> exists t :: t in tokens && Contains(hay, t)
    decreases |tokens|
  {
    if |tokens| > 0 {
      AnyInIff(tokens[1..], hay);
      if t :| t in tokens && Contains(hay, t) {
        if t != tokens[0] {
          var k :| 0 <= k < |tokens| && tokens[k] == t;
          assert tokens[1..][k - 1] == t;
        }
      }
    }
  }
}
