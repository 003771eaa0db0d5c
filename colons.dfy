/**
 The colon-splitting stage of template extraction: two successive
 `str.replace` passes, first `": "` by `":\n"` and then `":"` by `":\n"`
 (main.py:28-29).  `ColonLines` is an independent, one-character-at-a-time
 description of what the two passes do together, and everything proved
 about the stage is proved about it.
 */
module Colons {
  import opened Whitespace

  /** Python's `s.replace(pat, rep)`: a left-to-right scan that replaces
      every non-overlapping occurrence of `pat`; an empty `pat` matches once
      before every character and once at the end. */
  function ReplaceAll(s: string, pat: string, rep: string): string
    decreases |s|
  {
    if pat == [] then
      if s == [] then rep else rep + [s[0]] + ReplaceAll(s[1..], pat, rep)
    else if s == [] then []
    else if pat <= s then rep + ReplaceAll(s[|pat|..], pat, rep)
    else [s[0]] + ReplaceAll(s[1..], pat, rep)
  }

  /** The two passes of main.py:28-29, in the order the source runs them. */
  function SplitColons(t: string): string {
    ReplaceAll(ReplaceAll(t, ": ", ":\n"), ":", ":\n")
  }

  /** The combined effect of the two passes, one character at a time: a
      colon followed by a space becomes a colon and two line breaks, any
      other colon becomes a colon and one line break, and every other
      character is kept. */
  function ColonLines(t: string): (r: string)
    ensures |r| > 0 <==> |t| > 0
    ensures |t| > 0 ==> r[0] == t[0]
  {
    if t == [] then []
    else if |t| > 1 && t[0] == ':' && t[1] == ' ' then ":\n\n" + ColonLines(t[2..])
    else if t[0] == ':' then ":\n" + ColonLines(t[1..])
    else [t[0]] + ColonLines(t[1..])
  }

  /** `t` with every space that directly follows a colon removed. */
  function DropSpaceAfterColon(t: string): string {
    if t == [] then []
    else if |t| > 1 && t[0] == ':' && t[1] == ' ' then ":" + DropSpaceAfterColon(t[2..])
    else [t[0]] + DropSpaceAfterColon(t[1..])
  }

  /** `s` with every line break removed. */
  function DropNewlines(s: string): string {
    if s == [] then []
    else (if s[0] == '\n' then [] else [s[0]]) + DropNewlines(s[1..])
  }

  predicate NoNewline(t: string) {
    forall i :: 0 <= i < |t| ==> t[i] != '\n'
  }

  /** Every colon of `s` is immediately followed by a line break. */
  predicate ColonsEndLines(s: string) {
    forall i :: 0 <= i < |s| && s[i] == ':' ==> i + 1 < |s| && s[i + 1] == '\n'
  }

  /** Every line break of `s` comes right after a colon or right after a
      colon and one line break. */
  predicate NewlinesFollowColons(s: string) {
    forall i :: 0 <= i < |s| && s[i] == '\n' ==> AfterColon(s, i)
  }

  /** Position `i` of `s` comes right after a colon, or right after a colon
      and one line break. */
  predicate AfterColon(s: string, i: nat) {
    (1 <= i <= |s| && s[i - 1] == ':') || (2 <= i <= |s| && s[i - 2] == ':' && s[i - 1] == '\n')
  }

  /** Every whitespace character of `t` is a space and is followed by a
      character that is not whitespace (the suffix-closed part of
      `Collapsed`). */
  predicate SpacesSeparate(t: string) {
    forall i :: 0 <= i < |t| && IsSpace(t[i]) ==> t[i] == ' ' && i + 1 < |t| && !IsSpace(t[i + 1])
  }

  /** The whitespace of `s` is spaces and line breaks, and every space of
      `s` has a non-whitespace character after it and, unless it is the
      first character, before it. */
  predicate SpacedLines(s: string) {
    && (forall i :: 0 <= i < |s| && IsSpace(s[i]) ==> s[i] == ' ' || s[i] == '\n')
    && (forall i :: 0 <= i < |s| && s[i] == ' ' ==>
          i + 1 < |s| && !IsSpace(s[i + 1]) && (i > 0 ==> !IsSpace(s[i - 1])))
  }

  // ---------------------------------------------------------------------
  // The two passes against the reference description

  lemma FirstPassStep(t: string)
    requires t != []
    ensures |t| > 1 && t[0] == ':' && t[1] == ' ' ==>
      ReplaceAll(t, ": ", ":\n") == ":\n" + ReplaceAll(t[2..], ": ", ":\n")
    ensures !(|t| > 1 && t[0] == ':' && t[1] == ' ') ==>
      ReplaceAll(t, ": ", ":\n") == [t[0]] + ReplaceAll(t[1..], ": ", ":\n")
  {
    assert (": " <= t) <==> (|t| > 1 && t[0] == ':' && t[1] == ' ');
  }

  lemma SecondPassCons(c: char, x: string)
    ensures ReplaceAll([c] + x, ":", ":\n") ==
      (if c == ':' then ":\n" else [c]) + ReplaceAll(x, ":", ":\n")
  {
    assert ([c] + x)[1..] == x;
    if c == ':' {
      assert ":" == ([c] + x)[..1];
    } else {
      assert ([c] + x)[0] != ':';
    }
  }

  lemma SecondPassAppend(a: string, x: string)
    requires ':' !in a
    ensures ReplaceAll(a + x, ":", ":\n") == a + ReplaceAll(x, ":", ":\n")
  {
    if a != [] {
      assert a + x == [a[0]] + (a[1..] + x);
      SecondPassCons(a[0], a[1..] + x);
      SecondPassAppend(a[1..], x);
    } else {
      assert a + x == x;
    }
  }

  /** The two `replace` passes do exactly what `ColonLines` describes. */
  lemma {:induction false} SplitColonsIsColonLines(t: string)
    ensures SplitColons(t) == ColonLines(t)
    decreases |t|
  {
    if t == [] {
    } else if |t| > 1 && t[0] == ':' && t[1] == ' ' {
      SplitColonsIsColonLines(t[2..]);
      ColonSpaceStep(t);
    } else {
      SplitColonsIsColonLines(t[1..]);
      OtherStep(t);
    }
  }

  lemma ColonSpaceStep(t: string)
    requires |t| > 1 && t[0] == ':' && t[1] == ' '
    ensures SplitColons(t) == ":\n\n" + SplitColons(t[2..])
  {
    FirstPassStep(t);
    var p := ReplaceAll(t[2..], ": ", ":\n");
    assert ":\n" + p == [':'] + ("\n" + p);
    SecondPassCons(':', "\n" + p);
    SecondPassAppend("\n", p);
  }

  lemma OtherStep(t: string)
    requires t != [] && !(|t| > 1 && t[0] == ':' && t[1] == ' ')
    ensures SplitColons(t) == (if t[0] == ':' then ":\n" else [t[0]]) + SplitColons(t[1..])
  {
    FirstPassStep(t);
    SecondPassCons(t[0], ReplaceAll(t[1..], ": ", ":\n"));
  }

  // ---------------------------------------------------------------------
  // What the stage promises, proved of ColonLines

  /** Every colon of the result is followed by a line break. */
  lemma {:induction false} ColonLinesEndLines(t: string)
    ensures ColonsEndLines(ColonLines(t))
    decreases |t|
  {
    if t != [] {
      var r := ColonLines(t);
      if |t| > 1 && t[0] == ':' && t[1] == ' ' {
        ColonLinesEndLines(t[2..]);
        assert forall i :: 3 <= i < |r| ==> r[i] == ColonLines(t[2..])[i - 3];
      } else if t[0] == ':' {
        ColonLinesEndLines(t[1..]);
        assert forall i :: 2 <= i < |r| ==> r[i] == ColonLines(t[1..])[i - 2];
      } else {
        ColonLinesEndLines(t[1..]);
        assert forall i :: 1 <= i < |r| ==> r[i] == ColonLines(t[1..])[i - 1];
      }
    }
  }

  /** Only spaces and line breaks change: the non-whitespace characters,
      colons among them, are the same and in the same order. */
  lemma {:induction false} ColonLinesKeepsNonSpace(t: string)
    ensures NonSpace(ColonLines(t)) == NonSpace(t)
    decreases |t|
  {
    if t != [] {
      if |t| > 1 && t[0] == ':' && t[1] == ' ' {
        ColonLinesKeepsNonSpace(t[2..]);
        NonSpaceAppend(":\n\n", ColonLines(t[2..]));
        assert t == ": " + t[2..];
        NonSpaceAppend(": ", t[2..]);
      } else {
        var head := if t[0] == ':' then ":\n" else [t[0]];
        ColonLinesKeepsNonSpace(t[1..]);
        NonSpaceAppend(head, ColonLines(t[1..]));
        assert t == [t[0]] + t[1..];
        NonSpaceAppend([t[0]], t[1..]);
      }
    }
  }

  /** On text without line breaks, removing the inserted line breaks from
      the result leaves the input minus the space after each colon. */
  lemma {:induction false} ColonLinesOnlyInsertsNewlines(t: string)
    requires NoNewline(t)
    ensures DropNewlines(ColonLines(t)) == DropSpaceAfterColon(t)
    decreases |t|
  {
    if t != [] {
      if |t| > 1 && t[0] == ':' && t[1] == ' ' {
        ColonLinesOnlyInsertsNewlines(t[2..]);
        DropNewlinesAppend(":\n\n", ColonLines(t[2..]));
      } else {
        var head := if t[0] == ':' then ":\n" else [t[0]];
        ColonLinesOnlyInsertsNewlines(t[1..]);
        DropNewlinesAppend(head, ColonLines(t[1..]));
      }
    }
  }

  lemma {:induction false} DropNewlinesAppend(a: string, b: string)
    ensures DropNewlines(a + b) == DropNewlines(a) + DropNewlines(b)
  {
    if a != [] {
      assert (a + b)[0] == a[0];
      assert (a + b)[1..] == a[1..] + b;
      DropNewlinesAppend(a[1..], b);
      var head := if a[0] == '\n' then [] else [a[0]];
      assert DropNewlines(a + b) == head + (DropNewlines(a[1..]) + DropNewlines(b));
    } else {
      assert a + b == b;
    }
  }

  /** On text without line breaks, every line break of the result is one of
      those inserted after a colon. */
  lemma {:induction false} ColonLinesNewlines(t: string)
    requires NoNewline(t)
    ensures NewlinesFollowColons(ColonLines(t))
    decreases |t|
  {
    if t != [] {
      var n := if |t| > 1 && t[0] == ':' && t[1] == ' ' then 2 else 1;
      var u := t[n..];
      assert NoNewline(u) by {
        assert forall i :: 0 <= i < |u| ==> u[i] == t[n + i];
      }
      ColonLinesNewlines(u);
      var head := if n == 2 then ":\n\n" else if t[0] == ':' then ":\n" else [t[0]];
      assert ColonLines(t) == head + ColonLines(u);
      NewlinesAfterHead(head, ColonLines(u));
    }
  }

  lemma NewlinesAfterHead(head: string, r: string)
    requires head == ":\n\n" || head == ":\n" || (|head| == 1 && head[0] != '\n')
    requires NewlinesFollowColons(r)
    requires r == [] || r[0] != '\n'
    ensures NewlinesFollowColons(head + r)
  {
    var s := head + r;
    forall i | 0 <= i < |s| && s[i] == '\n'
      ensures AfterColon(s, i)
    {
      if i < |head| {
        assert s[i] == head[i] && head[0] == ':';
        assert i == 1 || i == 2;
        assert s[0] == ':' && s[1] == '\n';
      } else {
        var j := i - |head|;
        assert s[i] == r[j];
        assert AfterColon(r, j);
        assert j >= 1;
        assert s[i - 1] == r[j - 1];
        if j >= 2 {
          assert s[i - 2] == r[j - 2];
        }
      }
    }
  }

  /** On text whose every whitespace character is a single space between
      words, the result keeps that shape for its spaces, and its only other
      whitespace is the inserted line breaks. */
  lemma {:induction false} ColonLinesSpacing(t: string)
    requires SpacesSeparate(t)
    ensures SpacedLines(ColonLines(t))
    decreases |t|
  {
    if t != [] {
      var r := ColonLines(t);
      if |t| > 1 && t[0] == ':' && t[1] == ' ' {
        var u := t[2..];
        SpacesSeparateSuffix(t, 2);
        ColonLinesSpacing(u);
        assert forall i :: 3 <= i < |r| ==> r[i] == ColonLines(u)[i - 3];
        assert u != [] && !IsSpace(u[0]);
      } else {
        var u := t[1..];
        SpacesSeparateSuffix(t, 1);
        ColonLinesSpacing(u);
        if t[0] == ':' {
          assert forall i :: 2 <= i < |r| ==> r[i] == ColonLines(u)[i - 2];
          assert u != [] ==> u[0] != ' ';
        } else {
          assert forall i :: 1 <= i < |r| ==> r[i] == ColonLines(u)[i - 1];
          assert IsSpace(t[0]) ==> u != [] && !IsSpace(u[0]);
        }
      }
    }
  }

  /** Colon-free text passes through the stage unchanged. */
  lemma {:induction false} ColonLinesWord(w: string, r: string)
    requires ':' !in w
    ensures ColonLines(w + r) == w + ColonLines(r)
  {
    if w != [] {
      assert (w + r)[0] == w[0];
      assert (w + r)[1..] == w[1..] + r;
      ColonLinesWord(w[1..], r);
      assert [w[0]] + (w[1..] + ColonLines(r)) == w + ColonLines(r);
    } else {
      assert w + r == r;
    }
  }

  /** A name followed by a colon and a space: the space gives way to a
      second line break. */
  lemma LabelThenSpace(name: string, rest: string)
    requires ':' !in name
    ensures ColonLines(name + ": " + rest) == name + ":\n\n" + ColonLines(rest)
  {
    assert name + ": " + rest == name + (": " + rest);
    ColonLinesWord(name, ": " + rest);
    assert (": " + rest)[2..] == rest;
  }

  /** A name followed by a colon and no space: one line break. */
  lemma LabelThenOther(name: string, rest: string)
    requires ':' !in name
    requires rest == [] || rest[0] != ' '
    ensures ColonLines(name + ":" + rest) == name + ":\n" + ColonLines(rest)
  {
    assert name + ":" + rest == name + (":" + rest);
    ColonLinesWord(name, ":" + rest);
    assert (":" + rest)[1..] == rest;
  }

  /** Three labels, the first two followed by a space: the first two end in
      two line breaks and the last in one. */
  lemma ColonLinesThreeLabels(a: string, b: string, c: string)
    requires ':' !in a && ':' !in b && ':' !in c
    ensures ColonLines(a + ": " + b + ": " + c + ":") == a + ":\n\n" + b + ":\n\n" + c + ":\n"
  {
    LabelThenOther(c, "");
    assert c + ":" + "" == c + ":";
    LabelThenSpace(b, c + ":");
    LabelThenSpace(a, b + ": " + (c + ":"));
    assert a + ": " + b + ": " + c + ":" == a + ": " + (b + ": " + (c + ":"));
  }

  lemma SpacesSeparateSuffix(t: string, n: nat)
    requires SpacesSeparate(t)
    requires n <= |t|
    ensures SpacesSeparate(t[n..])
  {
    var u := t[n..];
    assert forall i :: 0 <= i < |u| ==> u[i] == t[n + i];
  }

  /** The two cases of the stage on small inputs: a colon followed by a
      space ends up followed by two line breaks, a colon followed by
      anything else by one. */
  lemma ColonExamples()
    ensures SplitColons("a: b") == "a:\n\nb"
    ensures SplitColons("a:b") == "a:\nb"
  {
    SplitColonsIsColonLines("a: b");
    SplitColonsIsColonLines("a:b");
  }
}
