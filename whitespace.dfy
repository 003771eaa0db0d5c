/**
 The whitespace-collapsing stage of template extraction: the Python
 expression `' '.join(text.split())`.  `Words` is `str.split()` with no
 argument, `Join` is `str.join`, and `Collapse` is their composition.
 */
module Whitespace {

  /** The characters Python's `str.split()` (with no argument) treats as
      separators, that is, those for which `str.isspace()` holds: the ASCII
      controls HT, LF, VT, FF, CR and FS, GS, RS, US, the space, and the
      Unicode spaces NEL, NBSP, OGHAM SPACE MARK, EN QUAD .. HAIR SPACE, LINE
      and PARAGRAPH SEPARATOR, NARROW NBSP, MEDIUM MATHEMATICAL SPACE and
      IDEOGRAPHIC SPACE. */
  predicate IsSpace(c: char) {
    || ('\t' <= c <= '\r')
    || ('\U{1C}' <= c <= '\U{1F}')
    || c == ' '
    || c == '\U{85}'
    || c == '\U{A0}'
    || c == '\U{1680}'
    || ('\U{2000}' <= c <= '\U{200A}')
    || c == '\U{2028}'
    || c == '\U{2029}'
    || c == '\U{202F}'
    || c == '\U{205F}'
    || c == '\U{3000}'
  }

  predicate AllSpace(s: string) {
    forall i :: 0 <= i < |s| ==> IsSpace(s[i])
  }

  predicate NoSpace(s: string) {
    forall i :: 0 <= i < |s| ==> !IsSpace(s[i])
  }

  /** The non-whitespace characters of `s`, in their order in `s`. */
  function NonSpace(s: string): (r: string)
    ensures NoSpace(r)
    ensures |r| <= |s|
  {
    if s == [] then [] else (if IsSpace(s[0]) then [] else [s[0]]) + NonSpace(s[1..])
  }

  /** The words of `ws` written one after the other. */
  function Flatten(ws: seq<string>): string {
    if ws == [] then [] else ws[0] + Flatten(ws[1..])
  }

  /** The longest prefix of `s` that holds no whitespace. */
  function FirstWord(s: string): (w: string)
    ensures w <= s
    ensures NoSpace(w)
    ensures |w| == |s| || IsSpace(s[|w|])
  {
    if s == [] || IsSpace(s[0]) then [] else [s[0]] + FirstWord(s[1..])
  }

  /** What `str.split()` can return: a list of non-empty words, none of
      which holds a whitespace character. */
  predicate ValidWords(ws: seq<string>) {
    forall k :: 0 <= k < |ws| ==> ws[k] != [] && NoSpace(ws[k])
  }

  /** `s.split()`: the maximal whitespace-free runs of `s`, in order. */
  function Words(s: string): (ws: seq<string>)
    ensures ValidWords(ws)
    decreases |s|
  {
    if s == [] then []
    else if IsSpace(s[0]) then Words(s[1..])
    else
      var w := FirstWord(s);
      [w] + Words(s[|w|..])
  }

  /** `sep.join(ws)`. */
  function Join(ws: seq<string>, sep: string): string {
    if ws == [] then []
    else if |ws| == 1 then ws[0]
    else ws[0] + sep + Join(ws[1..], sep)
  }

  /** `' '.join(s.split())` (main.py:26). */
  function Collapse(s: string): string {
    Join(Words(s), " ")
  }

  /** The shape `Collapse` promises: no leading or trailing whitespace, the
      space is the only whitespace character, and no two whitespace
      characters are adjacent. */
  predicate Collapsed(t: string) {
    && (|t| > 0 ==> !IsSpace(t[0]) && !IsSpace(t[|t| - 1]))
    && (forall i :: 0 <= i < |t| && IsSpace(t[i]) ==> t[i] == ' ')
    && (forall i :: 0 <= i < |t| - 1 ==> !(IsSpace(t[i]) && IsSpace(t[i + 1])))
  }

  // ---------------------------------------------------------------------
  // Splitting and joining

  lemma {:induction false} FirstWordOf(w: string, t: string)
    requires NoSpace(w)
    requires t == [] || IsSpace(t[0])
    ensures FirstWord(w + t) == w
  {
    if w != [] {
      assert (w + t)[0] == w[0];
      assert (w + t)[1..] == w[1..] + t;
      FirstWordOf(w[1..], t);
    }
  }

  /** Splitting a space-joined list of valid words gives the list back. */
  lemma {:induction false} WordsOfJoin(ws: seq<string>)
    requires ValidWords(ws)
    ensures Words(Join(ws, " ")) == ws
  {
    if ws == [] {
    } else if |ws| == 1 {
      var s := ws[0];
      assert s == s + [];
      FirstWordOf(s, []);
      assert s[|s|..] == [];
    } else {
      var w, rest := ws[0], Join(ws[1..], " ");
      var s := w + " " + rest;
      assert s == w + (" " + rest);
      FirstWordOf(w, " " + rest);
      assert s[0] == w[0];
      assert s[|w|..] == " " + rest;
      assert (" " + rest)[1..] == rest;
      WordsOfJoin(ws[1..]);
      assert [w] + ws[1..] == ws;
    }
  }

  /** A non-empty run with no whitespace is one word. */
  lemma WordsOfWord(w: string)
    requires w != [] && NoSpace(w)
    ensures Words(w) == [w]
  {
    FirstWordOf(w, []);
    assert w + [] == w;
    assert w[|w|..] == [];
  }

  /** A string of whitespace only has no words. */
  lemma {:induction false} WordsOfSpace(sp: string)
    requires AllSpace(sp)
    ensures Words(sp) == []
  {
    if sp != [] {
      WordsOfSpace(sp[1..]);
    }
  }

  /** `str.split()` cuts at every run of whitespace: splitting `a`, a
      non-empty whitespace run and `b` gives the words of `a` followed by
      the words of `b`. */
  lemma {:induction false} WordsSplitAtSpace(a: string, sp: string, b: string)
    requires sp != [] && AllSpace(sp)
    ensures Words(a + sp + b) == Words(a) + Words(b)
    decreases |a|
  {
    var u := sp + b;
    assert a + sp + b == a + u;
    if a == [] {
      assert a + u == u;
      WordsSkipSpace(sp, b);
    } else if IsSpace(a[0]) {
      assert (a + u)[1..] == a[1..] + u;
      WordsSplitAtSpace(a[1..], sp, b);
      assert a[1..] + sp + b == a[1..] + u;
    } else {
      var rest := a[|FirstWord(a)|..];
      WordsWordStep(a, u);
      WordsSplitAtSpace(rest, sp, b);
      assert rest + sp + b == rest + u;
    }
  }

  /** A word at the front of `a` stays the first word when whitespace, or
      nothing, follows `a`. */
  lemma WordsWordStep(a: string, u: string)
    requires a != [] && !IsSpace(a[0])
    requires u == [] || IsSpace(u[0])
    ensures Words(a + u) == [FirstWord(a)] + Words(a[|FirstWord(a)|..] + u)
  {
    var s := a + u;
    assert s[0] == a[0];
    WordsUnfold(s);
    FirstWordPrefix(a, u);
    DropOfAppend(a, u, |FirstWord(a)|);
  }

  lemma DropOfAppend(a: string, u: string, n: nat)
    requires n <= |a|
    ensures (a + u)[n..] == a[n..] + u
  {
  }

  lemma WordsUnfold(s: string)
    requires s != [] && !IsSpace(s[0])
    ensures Words(s) == [FirstWord(s)] + Words(s[|FirstWord(s)|..])
  {
  }

  /** Appending text that starts with whitespace does not change the
      first word. */
  lemma {:induction false} FirstWordPrefix(a: string, u: string)
    requires u == [] || IsSpace(u[0])
    ensures FirstWord(a + u) == FirstWord(a)
  {
    if a == [] {
      assert a + u == u;
    } else {
      assert (a + u)[0] == a[0];
      assert (a + u)[1..] == a[1..] + u;
      FirstWordPrefix(a[1..], u);
    }
  }

  /** Leading whitespace does not change the words. */
  lemma {:induction false} WordsSkipSpace(sp: string, b: string)
    requires AllSpace(sp)
    ensures Words(sp + b) == Words(b)
  {
    if sp != [] {
      assert (sp + b)[0] == sp[0];
      assert (sp + b)[1..] == sp[1..] + b;
      WordsSkipSpace(sp[1..], b);
    } else {
      assert sp + b == b;
    }
  }

  /** Joining valid words with single spaces gives a collapsed string. */
  lemma {:induction false} JoinIsCollapsed(ws: seq<string>)
    requires ValidWords(ws)
    ensures Collapsed(Join(ws, " "))
  {
    if |ws| >= 2 {
      var w, rest := ws[0], Join(ws[1..], " ");
      JoinIsCollapsed(ws[1..]);
      JoinNonEmpty(ws[1..]);
      var t := w + " " + rest;
      assert forall i :: 0 <= i < |w| ==> t[i] == w[i];
      assert t[|w|] == ' ';
      assert forall i :: |w| < i < |t| ==> t[i] == rest[i - |w| - 1];
    }
  }

  lemma {:induction false} JoinNonEmpty(ws: seq<string>)
    requires ValidWords(ws)
    ensures Join(ws, " ") == [] <==> ws == []
  {
    if |ws| >= 2 {
      JoinNonEmpty(ws[1..]);
    }
  }

  /** A collapsed string is the space-join of its own words. */
  lemma {:induction false} JoinOfWords(t: string)
    requires Collapsed(t)
    ensures Join(Words(t), " ") == t
    decreases |t|
  {
    if t != [] {
      var n := |FirstWord(t)|;
      assert n > 0 by { assert !IsSpace(t[0]); }
      if n == |t| {
        JoinOneWord(t);
      } else {
        assert IsSpace(t[n]);
        assert t[n] == ' ' && n + 1 < |t| && !IsSpace(t[n + 1]);
        CollapsedSuffix(t, n + 1);
        JoinOfWords(t[n + 1..]);
        JoinStep(t, n);
      }
    }
  }

  lemma JoinOneWord(t: string)
    requires t != [] && |FirstWord(t)| == |t|
    ensures Join(Words(t), " ") == t
  {
    assert FirstWord(t) == t;
    assert t[|t|..] == [];
  }

  lemma JoinStep(t: string, n: nat)
    requires n + 1 < |t| && n == |FirstWord(t)| && n > 0 && t[n] == ' '
    requires !IsSpace(t[n + 1])
    requires Join(Words(t[n + 1..]), " ") == t[n + 1..]
    ensures Join(Words(t), " ") == t
  {
    var w, rest := FirstWord(t), t[n + 1..];
    WordsAfterSpace(t, n);
    JoinCons(w, Words(rest), " ");
    assert t == t[..n] + [t[n]] + rest;
  }

  lemma WordsAfterSpace(t: string, n: nat)
    requires n + 1 < |t| && n == |FirstWord(t)| && n > 0 && t[n] == ' '
    requires !IsSpace(t[n + 1])
    ensures Words(t) == [FirstWord(t)] + Words(t[n + 1..])
    ensures Words(t[n + 1..]) != []
  {
    assert t[n..][1..] == t[n + 1..];
    assert Words(t[n..]) == Words(t[n + 1..]);
  }

  lemma JoinCons(w: string, ws: seq<string>, sep: string)
    requires ws != []
    ensures Join([w] + ws, sep) == w + sep + Join(ws, sep)
  {
    assert ([w] + ws)[1..] == ws;
  }

  lemma CollapsedSuffix(t: string, n: nat)
    requires Collapsed(t)
    requires 0 < n < |t|
    requires !IsSpace(t[n])
    ensures Collapsed(t[n..])
  {
    var u := t[n..];
    assert forall i :: 0 <= i < |u| ==> u[i] == t[n + i];
  }

  // ---------------------------------------------------------------------
  // Non-whitespace content

  lemma {:induction false} NonSpaceAppend(a: string, b: string)
    ensures NonSpace(a + b) == NonSpace(a) + NonSpace(b)
  {
    if a != [] {
      assert (a + b)[0] == a[0];
      assert (a + b)[1..] == a[1..] + b;
      NonSpaceAppend(a[1..], b);
      var head := if IsSpace(a[0]) then [] else [a[0]];
      calc {
        NonSpace(a + b);
        head + NonSpace(a[1..] + b);
        head + (NonSpace(a[1..]) + NonSpace(b));
        (head + NonSpace(a[1..])) + NonSpace(b);
      }
    } else {
      assert a + b == b;
    }
  }

  lemma {:induction false} NonSpaceOfWord(w: string)
    requires NoSpace(w)
    ensures NonSpace(w) == w
  {
    if w != [] {
      NonSpaceOfWord(w[1..]);
    }
  }

  /** `NonSpace(s)` is empty exactly when `s` is all whitespace. */
  lemma {:induction false} NonSpaceEmpty(s: string)
    ensures NonSpace(s) == [] <==> AllSpace(s)
  {
    if s != [] {
      NonSpaceEmpty(s[1..]);
      if AllSpace(s) {
        assert AllSpace(s[1..]) by {
          forall i | 0 <= i < |s| - 1 ensures IsSpace(s[1..][i]) {
            assert s[1..][i] == s[i + 1];
          }
        }
      } else if IsSpace(s[0]) {
        assert !AllSpace(s[1..]) by {
          var i :| 0 <= i < |s| && !IsSpace(s[i]);
          assert s[1..][i - 1] == s[i];
        }
      }
    }
  }

  /** The words of `s`, written together, are its non-whitespace characters. */
  lemma {:induction false} FlattenWords(s: string)
    ensures Flatten(Words(s)) == NonSpace(s)
    decreases |s|
  {
    if s != [] {
      if IsSpace(s[0]) {
        FlattenWords(s[1..]);
      } else {
        var w := FirstWord(s);
        FlattenWords(s[|w|..]);
        assert s == w + s[|w|..];
        NonSpaceAppend(w, s[|w|..]);
        NonSpaceOfWord(w);
        assert Words(s)[1..] == Words(s[|w|..]);
      }
    }
  }

  lemma {:induction false} NonSpaceOfJoin(ws: seq<string>)
    requires ValidWords(ws)
    ensures NonSpace(Join(ws, " ")) == Flatten(ws)
  {
    if |ws| == 1 {
      NonSpaceOfWord(ws[0]);
    } else if |ws| >= 2 {
      NonSpaceOfJoin(ws[1..]);
      NonSpaceAppend(ws[0] + " ", Join(ws[1..], " "));
      NonSpaceAppend(ws[0], " ");
      NonSpaceOfWord(ws[0]);
    }
  }

  // ---------------------------------------------------------------------
  // What `' '.join(s.split())` promises

  /** The collapsed text has no leading or trailing whitespace, no two
      adjacent whitespace characters, and the space as its only whitespace
      character. */
  lemma CollapseIsCollapsed(s: string)
    ensures Collapsed(Collapse(s))
  {
    JoinIsCollapsed(Words(s));
  }

  /** Collapsing keeps the sequence of words. */
  lemma CollapseKeepsWords(s: string)
    ensures Words(Collapse(s)) == Words(s)
  {
    WordsOfJoin(Words(s));
  }

  /** Collapsing twice is collapsing once. */
  lemma CollapseIdempotent(s: string)
    ensures Collapse(Collapse(s)) == Collapse(s)
  {
    CollapseKeepsWords(s);
  }

  /** `Collapse` leaves a string alone exactly when it is already collapsed. */
  lemma CollapseFixpoint(t: string)
    ensures Collapse(t) == t <==> Collapsed(t)
  {
    CollapseIsCollapsed(t);
    if Collapsed(t) {
      JoinOfWords(t);
    }
  }

  /** Collapsing keeps every non-whitespace character, in order. */
  lemma CollapseKeepsNonSpace(s: string)
    ensures NonSpace(Collapse(s)) == NonSpace(s)
  {
    NonSpaceOfJoin(Words(s));
    FlattenWords(s);
  }

  /** The collapsed text is empty exactly when the input is all whitespace. */
  lemma CollapseEmpty(s: string)
    ensures Collapse(s) == [] <==> AllSpace(s)
  {
    CollapseKeepsNonSpace(s);
    NonSpaceEmpty(s);
    NonSpaceEmpty(Collapse(s));
    CollapseIsCollapsed(s);
  }
}
