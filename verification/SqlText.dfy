/** What the automaton makes of SQL text: in strings and comments nothing ends a statement, and outside
    every ';' does (prestoapi/query_splitter.go). */
module SqlText {
  import opened SqlLexer

  /** Reading w from state s ends no statement and leads to state t. */
  predicate Passes(s: Lex, w: string, t: Lex) {
    Run(s, w) == t && forall k :: 0 <= k < |w| ==> w[k] != ';' || !Open(Run(s, w[..k]))
  }

  lemma PassNothing(s: Lex)
    ensures Passes(s, "", s)
  {
  }

  lemma PassByte(s: Lex, c: char)
    requires c != ';' || !Open(s)
    ensures Passes(s, [c], Step(s, c))
  {
    assert [c][..0] == "";
  }

  lemma PassBoth(s: Lex, a: string, t: Lex, b: string, u: Lex)
    requires Passes(s, a, t) && Passes(t, b, u)
    ensures Passes(s, a + b, u)
  {
    RunConcat(s, a, b);
    forall k | 0 <= k < |a + b|
      ensures (a + b)[k] != ';' || !Open(Run(s, (a + b)[..k]))
    {
      if k < |a| {
        assert (a + b)[..k] == a[..k];
      } else {
        assert (a + b)[..k] == a + b[..k - |a|];
        RunConcat(s, a, b[..k - |a|]);
      }
    }
  }

  lemma PassFirst(s: Lex, w: string, t: Lex)
    requires w != "" && (w[0] != ';' || !Open(s)) && Passes(Step(s, w[0]), w[1..], t)
    ensures Passes(s, w, t)
  {
    PassByte(s, w[0]);
    PassBoth(s, [w[0]], Step(s, w[0]), w[1..], t);
    assert w == [w[0]] + w[1..];
  }

  // ---------------------------------------------------------------- what stands inside

  /** The inside of a string in quotes q: a backslash takes the next byte with it, and q does not occur
      otherwise. */
  predicate StringBody(q: char, w: string) {
    w == ""
    || (w[0] != q && w[0] != '\\' && StringBody(q, w[1..]))
    || (w[0] == '\\' && |w| >= 2 && StringBody(q, w[2..]))
  }

  predicate NoNewline(w: string) {
    forall i :: 0 <= i < |w| ==> w[i] != '\n'
  }

  /** A star followed by a slash does not occur. */
  predicate NoBlockEnd(w: string) {
    forall i :: 0 <= i < |w| - 1 ==> !(w[i] == '*' && w[i + 1] == '/')
  }

  lemma {:induction false} InString(q: char, w: string)
    requires StringBody(q, w) && q != '\\'
    ensures Passes(Quote(q), w, Quote(q))
    decreases |w|
  {
    if w == "" {
      PassNothing(Quote(q));
    } else if w[0] != q && w[0] != '\\' {
      InString(q, w[1..]);
      PassFirst(Quote(q), w, Quote(q));
    } else {
      InString(q, w[2..]);
      var v := w[1..];
      assert v[1..] == w[2..];
      PassFirst(QuoteEscaped(q), v, Quote(q));
      PassFirst(Quote(q), w, Quote(q));
    }
  }

  lemma {:induction false} InLine(w: string)
    requires NoNewline(w)
    ensures Passes(LineComment, w, LineComment)
    decreases |w|
  {
    if w == "" {
      PassNothing(LineComment);
    } else {
      InLine(w[1..]);
      PassFirst(LineComment, w, LineComment);
    }
  }

  lemma {:induction false} InBlock(s: Lex, w: string) returns (t: Lex)
    requires NoBlockEnd(w) && (s == BlockComment || (s == BlockStar && (w == "" || w[0] != '/')))
    ensures Passes(s, w, t) && (t == BlockComment || t == BlockStar)
    decreases |w|
  {
    if w == "" {
      t := s;
      PassNothing(s);
    } else {
      assert w[0] == '*' && |w| > 1 ==> w[0 + 1] != '/';
      t := InBlock(Step(s, w[0]), w[1..]);
      PassFirst(s, w, t);
    }
  }

  // ---------------------------------------------------------------- strings, comments and open text

  /** Between the start and the end of w, after pre, nothing ends a statement, and w leads to state t. */
  ghost predicate Skipped(pre: string, w: string, post: string, t: Lex) {
    NoEnd(pre + w + post, |pre|, |pre| + |w|) && At(pre + w + post, |pre| + |w|) == t
  }

  lemma TakeInside<T>(a: seq<T>, b: seq<T>, c: seq<T>, k: nat)
    requires k <= |b|
    ensures (a + b + c)[..|a| + k] == a + b[..k]
  {
    assert (a + b)[..|a| + k] == a + b[..k];
  }

  lemma AtInside(pre: string, w: string, post: string, k: nat)
    requires k <= |w|
    ensures At(pre + w + post, |pre| + k) == Run(Run(Normal, pre), w[..k])
  {
    TakeInside(pre, w, post, k);
    RunConcat(Normal, pre, w[..k]);
  }

  lemma PassSkips(pre: string, w: string, post: string, t: Lex)
    requires Passes(Run(Normal, pre), w, t)
    ensures Skipped(pre, w, post, t)
  {
    forall p | |pre| <= p < |pre| + |w|
      ensures !Ends(pre + w + post, p)
    {
      AtInside(pre, w, post, p - |pre|);
      assert (pre + w + post)[p] == w[p - |pre|];
    }
    AtInside(pre, w, post, |w|);
    assert w[..|w|] == w;
  }

  /** A string in quotes ends no statement, and after it the text is open again. */
  lemma StringSkipped(pre: string, q: char, body: string, post: string)
    requires Open(Run(Normal, pre)) && (q == '\'' || q == '"') && StringBody(q, body)
    ensures Skipped(pre, [q] + (body + [q]), post, Normal)
  {
    PassByte(Run(Normal, pre), q);
    InString(q, body);
    PassByte(Quote(q), q);
    PassBoth(Quote(q), body, Quote(q), [q], Normal);
    PassBoth(Run(Normal, pre), [q], Quote(q), body + [q], Normal);
    PassSkips(pre, [q] + (body + [q]), post, Normal);
  }

  /** Neither does a comment up to the end of its line. */
  lemma LineCommentSkipped(pre: string, body: string, post: string)
    requires Open(Run(Normal, pre)) && NoNewline(body)
    ensures Skipped(pre, ['-'] + (['-'] + (body + ['\n'])), post, Normal)
  {
    var s := Run(Normal, pre);
    InLine(body);
    PassByte(LineComment, '\n');
    PassBoth(LineComment, body, LineComment, ['\n'], Normal);
    PassByte(Step(s, '-'), '-');
    PassBoth(Step(s, '-'), ['-'], LineComment, body + ['\n'], Normal);
    PassByte(s, '-');
    PassBoth(s, ['-'], Step(s, '-'), ['-'] + (body + ['\n']), Normal);
    PassSkips(pre, ['-'] + (['-'] + (body + ['\n'])), post, Normal);
  }

  /** Nor a block comment up to its first end mark. */
  lemma BlockCommentSkipped(pre: string, body: string, post: string)
    requires Open(Run(Normal, pre)) && NoBlockEnd(body)
    ensures Skipped(pre, ['/'] + (['*'] + (body + ['*', '/'])), post, Normal)
  {
    var s, end := Run(Normal, pre), ['*', '/'];
    var t := InBlock(BlockComment, body);
    PassByte(BlockStar, '/');
    PassFirst(t, end, Normal);
    PassBoth(BlockComment, body, t, end, Normal);
    PassByte(Slash, '*');
    PassBoth(Slash, ['*'], BlockComment, body + end, Normal);
    PassByte(s, '/');
    PassBoth(s, ['/'], Slash, ['*'] + (body + end), Normal);
    PassSkips(pre, ['/'] + (['*'] + (body + end)), post, Normal);
  }

  /** Where the text is open, exactly a ';' ends a statement, and every byte leaves the text open but one that
      starts a string or completes the start of a comment. */
  lemma OpenByte(pre: string, c: char, post: string)
    requires Open(Run(Normal, pre))
    ensures Ends(pre + [c] + post, |pre|) <==> c == ';'
    ensures Open(At(pre + [c] + post, |pre| + 1)) <==>
            !(c == '\'' || c == '"' || (c == '-' && Run(Normal, pre) == Dash)
              || (c == '*' && Run(Normal, pre) == Slash))
  {
    AtInside(pre, [c], post, 0);
    AtInside(pre, [c], post, 1);
    assert [c][..0] == "" && [c][..1] == [c];
    assert Run(Run(Normal, pre), [c]) == Step(Run(Normal, pre), c);
    assert (pre + [c] + post)[|pre|] == c;
  }
}
