/** `sanitize_filename`: two regular-expression substitutions that turn a user-supplied
    name into a safe file name. */
module Sanitizer {

  /** The word class `\w`: letters, digits and `_` (ASCII only in this model). */
  predicate IsWordChar(c: char)
  {
    'a' <= c <= 'z' || 'A' <= c <= 'Z' || '0' <= c <= '9' || c == '_'
  }

  /** The whitespace class `\s` on ASCII: space, tab, line feed, vertical tab, form feed,
      carriage return and the four separators U+001C to U+001F. */
  predicate IsSpaceChar(c: char)
  {
    c == ' ' || '\t' <= c <= '\r' || '\U{1c}' <= c <= '\U{1f}'
  }

  /** `[\w\s-]`: what the first substitution keeps. */
  predicate IsKept(c: char)
  {
    IsWordChar(c) || IsSpaceChar(c) || c == '-'
  }

  /** What a sanitised name may contain: word characters and `-`. */
  predicate IsSafeChar(c: char)
  {
    IsWordChar(c) || c == '-'
  }

  /** Every character of `s` is kept by the first pass. */
  predicate AllKept(s: string)
  {
    s == [] || (IsKept(s[0]) && AllKept(s[1..]))
  }

  /** `s` holds no whitespace. */
  predicate NoSpaces(s: string)
  {
    s == [] || (!IsSpaceChar(s[0]) && NoSpaces(s[1..]))
  }

  /** `s` holds only word characters and `-`. */
  predicate IsSafeName(s: string)
  {
    s == [] || (IsSafeChar(s[0]) && IsSafeName(s[1..]))
  }

  /** A safe name, read character by character. */
  lemma {:induction false} SafeNameAt(s: string, i: int)
    requires IsSafeName(s) && 0 <= i < |s|
    ensures IsSafeChar(s[i])
    decreases |s|
  {
    if i > 0 {
      SafeNameAt(s[1..], i - 1);
    }
  }

  /** `re.sub(r"[^\w\s-]", "", s)`: drop every character outside `\w`, `\s` and `-`,
      keeping the others in order. */
  function DropUnsafe(s: string): string
  {
    if s == [] then []
    else (if IsKept(s[0]) then [s[0]] else []) + DropUnsafe(s[1..])
  }

  /** The first pass never lengthens and keeps only characters of `[\w\s-]`; it leaves a
      string of such characters as it is. */
  lemma {:induction false} DropUnsafeBounds(s: string)
    ensures |DropUnsafe(s)| <= |s|
    ensures AllKept(DropUnsafe(s))
    ensures AllKept(s) ==> DropUnsafe(s) == s
    decreases |s|
  {
    if s != [] {
      DropUnsafeBounds(s[1..]);
      var r := DropUnsafe(s);
      if IsKept(s[0]) {
        assert r == [s[0]] + DropUnsafe(s[1..]);
        assert r[1..] == DropUnsafe(s[1..]);
      } else {
        assert r == DropUnsafe(s[1..]);
      }
    }
  }

  /** A suffix of `s` that does not start with whitespace, reached by skipping whitespace. */
  function DropLeadingSpaces(s: string): (r: string)
    ensures |r| <= |s|
    ensures r == [] || !IsSpaceChar(r[0])
  {
    if s != [] && IsSpaceChar(s[0]) then DropLeadingSpaces(s[1..]) else s
  }

  /** Skipping leading whitespace keeps a string of kept characters such. */
  lemma {:induction false} DropLeadingSpacesKept(s: string)
    requires AllKept(s)
    ensures AllKept(DropLeadingSpaces(s))
    decreases |s|
  {
    if s != [] && IsSpaceChar(s[0]) {
      DropLeadingSpacesKept(s[1..]);
    }
  }

  /** `re.sub(r"\s+", "_", s)`: every maximal run of whitespace becomes one `_`. */
  function CollapseSpaces(s: string): string
    decreases |s|
  {
    if s == [] then []
    else if IsSpaceChar(s[0]) then "_" + CollapseSpaces(DropLeadingSpaces(s[1..]))
    else [s[0]] + CollapseSpaces(s[1..])
  }

  /** The second pass never lengthens, leaves no whitespace, and turns a string of kept
      characters into a safe name. */
  lemma {:induction false} CollapseSpacesBounds(s: string)
    ensures |CollapseSpaces(s)| <= |s|
    ensures NoSpaces(CollapseSpaces(s))
    ensures AllKept(s) ==> IsSafeName(CollapseSpaces(s))
    decreases |s|
  {
    if s != [] {
      var r := CollapseSpaces(s);
      if IsSpaceChar(s[0]) {
        var t := DropLeadingSpaces(s[1..]);
        CollapseSpacesBounds(t);
        if AllKept(s) {
          DropLeadingSpacesKept(s[1..]);
        }
        assert r == "_" + CollapseSpaces(t);
        assert r[1..] == CollapseSpaces(t);
      } else {
        CollapseSpacesBounds(s[1..]);
        assert r[1..] == CollapseSpaces(s[1..]);
      }
    }
  }

  /** Text without whitespace passes through the second pass unchanged. */
  lemma {:induction false} CollapseSpacesWithoutSpaces(s: string)
    requires NoSpaces(s)
    ensures CollapseSpaces(s) == s
    decreases |s|
  {
    if s != [] {
      CollapseSpacesWithoutSpaces(s[1..]);
    }
  }

  /** `sanitize_filename(s)`. */
  function Sanitize(s: string): string
  {
    CollapseSpaces(DropUnsafe(s))
  }

  /** The result holds only word characters and `-` (no whitespace, no other punctuation)
      and is never longer than the input. */
  lemma SanitizeBounds(s: string)
    ensures |Sanitize(s)| <= |s|
    ensures forall i :: 0 <= i < |Sanitize(s)| ==> IsSafeChar(Sanitize(s)[i])
    ensures forall i :: 0 <= i < |Sanitize(s)| ==> !IsSpaceChar(Sanitize(s)[i])
  {
    DropUnsafeBounds(s);
    CollapseSpacesBounds(DropUnsafe(s));
    forall i | 0 <= i < |Sanitize(s)| ensures IsSafeChar(Sanitize(s)[i]) {
      SafeNameAt(Sanitize(s), i);
    }
  }

  /** Safe names are kept by the first pass and have no whitespace. */
  lemma {:induction false} SafeNameIsKept(s: string)
    requires IsSafeName(s)
    ensures AllKept(s) && NoSpaces(s)
    decreases |s|
  {
    if s != [] {
      SafeNameIsKept(s[1..]);
    }
  }

  /** A name made of word characters and `-` only is its own sanitisation, and only such
      names are. */
  lemma SanitizeFixedPoints(s: string)
    ensures Sanitize(s) == s <==> IsSafeName(s)
  {
    if IsSafeName(s) {
      SafeNameIsKept(s);
      DropUnsafeBounds(s);
      CollapseSpacesWithoutSpaces(s);
    } else {
      DropUnsafeBounds(s);
      CollapseSpacesBounds(DropUnsafe(s));
    }
  }

  /** Sanitising twice is sanitising once. */
  lemma SanitizeIdempotent(s: string)
    ensures Sanitize(Sanitize(s)) == Sanitize(s)
  {
    DropUnsafeBounds(s);
    CollapseSpacesBounds(DropUnsafe(s));
    SanitizeFixedPoints(Sanitize(s));
  }

  /** The first pass works character by character. */
  lemma {:induction false} DropUnsafeConcat(a: string, b: string)
    ensures DropUnsafe(a + b) == DropUnsafe(a) + DropUnsafe(b)
    decreases |a|
  {
    if a == [] {
      assert a + b == b;
    } else {
      assert (a + b)[0] == a[0];
      assert (a + b)[1..] == a[1..] + b;
      DropUnsafeConcat(a[1..], b);
      var head := if IsKept(a[0]) then [a[0]] else [];
      calc {
        DropUnsafe(a + b);
        head + DropUnsafe(a[1..] + b);
        head + (DropUnsafe(a[1..]) + DropUnsafe(b));
        (head + DropUnsafe(a[1..])) + DropUnsafe(b);
      }
    }
  }

  /** A whitespace-free prefix passes through the second pass unchanged. */
  lemma {:induction false} CollapseSpacesAfterWord(a: string, b: string)
    requires NoSpaces(a)
    ensures CollapseSpaces(a + b) == a + CollapseSpaces(b)
    decreases |a|
  {
    if a == [] {
      assert a + b == b;
    } else {
      assert (a + b)[0] == a[0];
      assert (a + b)[1..] == a[1..] + b;
      CollapseSpacesAfterWord(a[1..], b);
    }
  }

  /** A concatenation keeps only kept characters when both parts do. */
  lemma {:induction false} AllKeptConcat(a: string, b: string)
    requires AllKept(a) && AllKept(b)
    ensures AllKept(a + b)
    decreases |a|
  {
    if a != [] {
      AllKeptConcat(a[1..], b);
      assert (a + b)[0] == a[0];
      assert (a + b)[1..] == a[1..] + b;
    } else {
      assert a + b == b;
    }
  }

  /** An unsafe last character is all the first pass removes from a kept prefix. */
  lemma DropUnsafeLast(a: string, c: char)
    requires AllKept(a) && !IsKept(c)
    ensures DropUnsafe(a + [c]) == a
  {
    DropUnsafeConcat(a, [c]);
    DropUnsafeBounds(a);
    assert DropUnsafe([c]) == [];
  }

  /** The first pass of the example drops the final `!`. */
  lemma ExampleFirstPass()
    ensures DropUnsafe("My Report v2!") == "My Report v2"
  {
    var a, b, c := "My ", "Report ", "v2";
    assert AllKept(a) && AllKept(b) && AllKept(c);
    AllKeptConcat(b, c);
    AllKeptConcat(a, b + c);
    assert a + (b + c) == "My Report v2";
    DropUnsafeLast(a + (b + c), '!');
    assert a + (b + c) + ['!'] == "My Report v2!";
  }

  /** The second pass of the example turns each space into `_`. */
  lemma ExampleSecondPass()
    ensures CollapseSpaces("My Report v2") == "My_Report_v2"
  {
    assert NoSpaces("My") && NoSpaces("Report") && NoSpaces("v2");
    CollapseThreeWords("My", "Report", "v2");
    assert "My" + (" " + ("Report" + (" " + "v2"))) == "My Report v2";
    assert "My" + ("_" + ("Report" + ("_" + "v2"))) == "My_Report_v2";
  }

  /** One space before a word becomes one `_`. */
  lemma CollapseSingleSpace(b: string)
    requires b == [] || !IsSpaceChar(b[0])
    ensures CollapseSpaces(" " + b) == "_" + CollapseSpaces(b)
  {
    assert (" " + b)[0] == ' ';
    assert (" " + b)[1..] == b;
  }

  /** A word, one space, and the rest. */
  lemma CollapseWordThenSpace(a: string, b: string)
    requires NoSpaces(a) && (b == [] || !IsSpaceChar(b[0]))
    ensures CollapseSpaces(a + (" " + b)) == a + ("_" + CollapseSpaces(b))
  {
    CollapseSpacesAfterWord(a, " " + b);
    CollapseSingleSpace(b);
  }

  /** Three words separated by single spaces. */
  lemma CollapseThreeWords(a: string, b: string, c: string)
    requires NoSpaces(a) && NoSpaces(b) && NoSpaces(c) && b != [] && c != []
    ensures CollapseSpaces(a + (" " + (b + (" " + c)))) == a + ("_" + (b + ("_" + c)))
  {
    var bc := b + (" " + c);
    assert bc[0] == b[0];
    CollapseWordThenSpace(a, bc);
    CollapseWordThenSpace(b, c);
    CollapseSpacesWithoutSpaces(c);
  }

  /** The example the name rule is known by. */
  lemma SanitizeExample()
    ensures Sanitize("My Report v2!") == "My_Report_v2"
  {
    ExampleFirstPass();
    ExampleSecondPass();
  }

  /** Underscores already in the name are kept: only whitespace runs become one `_`, so
      `_` can end up doubled or tripled. */
  lemma SanitizeKeepsUnderscores()
    ensures Sanitize("a _ b") == "a___b"
  {
    var a, u, b := "a", "_", "b";
    assert AllKept(a + " ") && AllKept(u + " ") && AllKept(b);
    AllKeptConcat(u + " ", b);
    AllKeptConcat(a + " ", (u + " ") + b);
    assert (a + " ") + ((u + " ") + b) == "a _ b";
    DropUnsafeBounds("a _ b");
    assert NoSpaces(a) && NoSpaces(u) && NoSpaces(b);
    CollapseThreeWords(a, u, b);
    assert a + (" " + (u + (" " + b))) == "a _ b";
    assert a + ("_" + (u + ("_" + b))) == "a___b";
  }
}
