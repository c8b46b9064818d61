/** Python's string operations the core relies on: the `in` operator on strings and
    `str.replace`. */
module PyText {

  /** `p` is a prefix of `s`. */
  predicate HasPrefix(s: string, p: string)
  {
    |p| <= |s| && s[..|p|] == p
  }

  /** `s.endswith(p)`. */
  predicate HasSuffix(s: string, p: string)
  {
    |p| <= |s| && s[|s| - |p|..] == p
  }

  /** `k in s` for strings: `k` occurs somewhere in `s`; the empty string occurs in every string. */
  predicate In(k: string, s: string)
    decreases |s|
  {
    HasPrefix(s, k) || (|s| > 0 && In(k, s[1..]))
  }

  /** `k` occurs in `s` starting at index `i`. */
  predicate OccursAt(k: string, s: string, i: int)
  {
    0 <= i <= |s| && HasPrefix(s[i..], k)
  }

  /** A key and a replacement that cannot recombine into a new occurrence of the key:
      both non-empty, the replacement's first character not in the key and the key's
      first character not in the replacement. */
  predicate Unambiguous(k: string, v: string)
  {
    k != [] && v != [] && v[0] !in k && k[0] !in v
  }

  /** The recursive `In` is the usual "there is a position where `k` starts". */
  lemma {:induction false} InIffOccurs(k: string, s: string)
    ensures In(k, s) <==> exists i :: OccursAt(k, s, i)
    decreases |s|
  {
    if In(k, s) {
      if HasPrefix(s, k) {
        assert s[0..] == s;
        assert OccursAt(k, s, 0);
      } else {
        InIffOccurs(k, s[1..]);
        var i :| OccursAt(k, s[1..], i);
        assert s[1..][i..] == s[i + 1..];
        assert OccursAt(k, s, i + 1);
      }
    }
    if exists i :: OccursAt(k, s, i) {
      var i :| OccursAt(k, s, i);
      if i == 0 {
        assert s[0..] == s;
      } else {
        assert s[1..][i - 1..] == s[i..];
        assert OccursAt(k, s[1..], i - 1);
        InIffOccurs(k, s[1..]);
      }
    }
  }

  /** `s.replace(k, v)`: every non-overlapping occurrence of `k`, found scanning left to
      right, becomes `v`; an empty `k` puts `v` before every character and at the end. */
  function Replace(s: string, k: string, v: string): string
  {
    if k == [] then InsertEverywhere(s, v) else ReplaceScan(s, k, v)
  }

  /** `s.replace("", v)`. */
  function InsertEverywhere(s: string, v: string): (r: string)
    ensures |r| == |s| + (|s| + 1) * |v|
    ensures HasPrefix(r, v)
  {
    if s == [] then v else v + [s[0]] + InsertEverywhere(s[1..], v)
  }

  /** The left-to-right scan of `str.replace` for a non-empty key. */
  function ReplaceScan(s: string, k: string, v: string): string
    requires k != []
    decreases |s|
  {
    if s == [] then []
    else if HasPrefix(s, k) then v + ReplaceScan(s[|k|..], k, v)
    else [s[0]] + ReplaceScan(s[1..], k, v)
  }

  /** A non-empty key that does not occur leaves the string as it is. */
  lemma {:induction false} ReplaceWithoutKey(s: string, k: string, v: string)
    requires k != [] && !In(k, s)
    ensures Replace(s, k, v) == s
    decreases |s|
  {
    if s != [] {
      ReplaceWithoutKey(s[1..], k, v);
    }
  }

  /** When the key occurs, the replacement text occurs in the result. */
  lemma {:induction false} ReplaceInsertsValue(s: string, k: string, v: string)
    requires In(k, s)
    ensures In(v, Replace(s, k, v))
    decreases |s|
  {
    var r := Replace(s, k, v);
    if k == [] {
      assert HasPrefix(r, v);
    } else if HasPrefix(s, k) {
      assert r[..|v|] == v;
    } else {
      ReplaceInsertsValue(s[1..], k, v);
      assert r[1..] == Replace(s[1..], k, v);
    }
  }

  /** When the input starts with the key, the output starts with the replacement. */
  lemma ScanStartsWithValue(t: string, k: string, v: string)
    requires k != [] && v != [] && HasPrefix(t, k)
    ensures HasPrefix(ReplaceScan(t, k, v), v)
    ensures ReplaceScan(t, k, v)[0] == v[0]
  {
    assert ReplaceScan(t, k, v)[..|v|] == v;
  }

  /** A prefix of the scan's output that does not hold the replacement's first
      character was copied from the input unchanged. */
  lemma {:induction false} ScanKeepsPrefix(t: string, k: string, v: string, w: string)
    requires k != [] && v != []
    requires HasPrefix(ReplaceScan(t, k, v), w) && v[0] !in w
    ensures HasPrefix(t, w)
    decreases |t|
  {
    // When `t` starts with `k` the output starts with `v[0]`, which `w` cannot start
    // with; so only the copying case remains.
    if w != [] && t != [] {
      var r := ReplaceScan(t, k, v);
      if HasPrefix(t, k) {
        ScanStartsWithValue(t, k, v);
        assert false;
      } else {
        assert r[1..] == ReplaceScan(t[1..], k, v);
        assert HasPrefix(r[1..], w[1..]);
        assert v[0] !in w[1..];
        ScanKeepsPrefix(t[1..], k, v, w[1..]);
        assert t[..|w|] == [t[0]] + t[1..][..|w| - 1];
        assert w == [w[0]] + w[1..];
      }
    }
  }

  /** A key cannot start inside a text that does not hold the key's first character. */
  lemma {:induction false} NotInAfterForeignText(k: string, u: string, x: string)
    requires k != [] && k[0] !in u && !In(k, x)
    ensures !In(k, u + x)
    decreases |u|
  {
    if u == [] {
      assert u + x == x;
    } else {
      assert (u + x)[0] == u[0];
      assert (u + x)[1..] == u[1..] + x;
      assert k[0] !in u[1..];
      NotInAfterForeignText(k, u[1..], x);
    }
  }

  /** For an unambiguous key and replacement, no occurrence of the key survives the
      replacement. */
  lemma {:induction false} ReplaceRemovesKey(s: string, k: string, v: string)
    requires Unambiguous(k, v)
    ensures !In(k, Replace(s, k, v))
    decreases |s|
  {
    var r := Replace(s, k, v);
    if s != [] {
      if HasPrefix(s, k) {
        ReplaceRemovesKey(s[|k|..], k, v);
        NotInAfterForeignText(k, v, Replace(s[|k|..], k, v));
      } else {
        ReplaceRemovesKey(s[1..], k, v);
        assert r[1..] == Replace(s[1..], k, v);
        if HasPrefix(r, k) {
          assert HasPrefix(ReplaceScan(s[1..], k, v), k[1..]) by {
            assert r[1..][..|k| - 1] == r[..|k|][1..];
          }
          assert v[0] !in k[1..];
          ScanKeepsPrefix(s[1..], k, v, k[1..]);
          assert false;
        }
      }
    }
  }
}
