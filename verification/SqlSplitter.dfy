/** SplitQueries: the statement scanner driven by bufio.Scanner over a reader that hands out
    its bytes in arbitrary pieces. */
module SqlSplitter {
  import opened SqlLexer
  import opened Wrappers

  // ---------------------------------------------------------------- the reference split

  /** The input cut at every ';' that the automaton reads outside comments and quotes. */
  function Pieces(x: string): (ps: seq<string>)
    ensures |ps| >= 1
    decreases |x|
  {
    var e := FirstEnd(x);
    if e < |x| then [x[..e]] + Pieces(x[e + 1..]) else [x]
  }

  /** What each piece holds: a statement, or nothing. */
  function Marks(ps: seq<string>): (ms: seq<Option<string>>)
    ensures |ms| == |ps|
  {
    if ps == [] then [] else [Token(ps[0])] + Marks(ps[1..])
  }

  function Somes<T>(ms: seq<Option<T>>): seq<T> {
    if ms == [] then [] else (if ms[0].Some? then [ms[0].value] else []) + Somes(ms[1..])
  }

  /** The statements of `x`: its pieces, trimmed, without the blank ones. */
  function Statements(x: string): seq<string> {
    Somes(Marks(Pieces(x)))
  }

  /** How many of the first k pieces hold a statement. */
  function Held(ps: seq<string>, k: nat): nat
    requires k <= |ps|
  {
    if k == 0 then 0 else Held(ps, k - 1) + if Token(ps[k - 1]).Some? then 1 else 0
  }

  lemma {:induction false} HeldFrom(ps: seq<string>, k: nat)
    requires 0 < k <= |ps|
    ensures Held(ps, k) == (if Token(ps[0]).Some? then 1 else 0) + Held(ps[1..], k - 1)
  {
    if k > 1 {
      HeldFrom(ps, k - 1);
    }
  }

  /** Each piece that holds a statement gives it, at the place that it has among them. */
  lemma {:induction false} StatementAt(ps: seq<string>, i: nat)
    requires i < |ps|
    ensures |Somes(Marks(ps))| == Held(ps, |ps|)
    ensures Token(ps[i]).Some? ==>
              Held(ps, i) < |Somes(Marks(ps))| && Somes(Marks(ps))[Held(ps, i)] == Token(ps[i]).value
  {
    var rest := ps[1..];
    assert Marks(ps)[1..] == Marks(rest);
    HeldFrom(ps, |ps|);
    if i > 0 {
      StatementAt(rest, i - 1);
      HeldFrom(ps, i);
    } else if rest != [] {
      StatementAt(rest, 0);
    }
  }

  function Join(ps: seq<string>, sep: string): string {
    if ps == [] then "" else if |ps| == 1 then ps[0] else ps[0] + sep + Join(ps[1..], sep)
  }

  /** No ';' inside `p` ends a statement. */
  predicate Whole(p: string) {
    FirstEnd(p) == |p|
  }

  /** A ';' written after `p` ends a statement. */
  predicate Closable(p: string) {
    Open(Run(Normal, p))
  }

  /** A list of pieces that a text can be cut into: only the last may be left unterminated. */
  predicate Cut(ps: seq<string>) {
    && |ps| >= 1
    && (forall i :: 0 <= i < |ps| ==> Whole(ps[i]))
    && (forall i :: 0 <= i < |ps| - 1 ==> Closable(ps[i]))
  }

  lemma WholePrefix(x: string, e: nat)
    requires e <= |x| && NoEnd(x, 0, e)
    ensures Whole(x[..e])
  {
    forall p | 0 <= p < e
      ensures !Ends(x[..e], p)
    {
      EndsIsLocal(x[..e], x[e..], p);
      assert x[..e] + x[e..] == x;
    }
    FirstEndIs(x[..e], e);
  }

  /** Cutting and joining are inverse: every text is the join of its pieces, ... */
  lemma {:induction false} PiecesCut(x: string)
    ensures Cut(Pieces(x)) && Join(Pieces(x), ";") == x
    decreases |x|
  {
    var e := FirstEnd(x);
    FirstEndEnds(x);
    if e < |x| {
      var rest := Pieces(x[e + 1..]);
      PiecesCut(x[e + 1..]);
      WholePrefix(x, e);
      var ps := Pieces(x);
      assert ps == [x[..e]] + rest && ps[1..] == rest;
      assert x == x[..e] + ";" + x[e + 1..];
    }
  }

  lemma FirstEndOfJoin(p: string, more: string)
    requires Whole(p) && Closable(p)
    ensures FirstEnd(p + ";" + more) == |p|
  {
    var x := p + ";" + more;
    assert x == p + (";" + more);
    FirstEndEnds(p);
    forall k | 0 <= k < |p|
      ensures !Ends(x, k)
    {
      EndsIsLocal(p, ";" + more, k);
    }
    assert x[..|p|] == p;
    FirstEndIs(x, |p|);
  }

  /** ... and every cut is recovered from the text it joins to. */
  lemma {:induction false} CutIsPieces(ps: seq<string>)
    requires Cut(ps)
    ensures Pieces(Join(ps, ";")) == ps
    decreases |ps|
  {
    if |ps| > 1 {
      var more := Join(ps[1..], ";");
      FirstEndOfJoin(ps[0], more);
      var x := ps[0] + ";" + more;
      assert x[..|ps[0]|] == ps[0] && x[|ps[0]| + 1..] == more;
      CutIsPieces(ps[1..]);
    }
  }

  // ---------------------------------------------------------------- what the driver emits

  /** The reads of an io.Reader: `unread` arrive without an error, `last` together with io.EOF.
      `buf` is what the scanner holds, `eof` whether it has seen io.EOF. */
  datatype Source = Source(buf: string, unread: seq<string>, last: string, eof: bool) {
    function Fill(): Source
      requires !eof
    {
      if unread == [] then this.(buf := buf + last, last := "", eof := true)
      else this.(buf := buf + unread[0], unread := unread[1..])
    }

    function Skip(n: nat): Source
      requires n <= |buf|
    {
      this.(buf := buf[n..])
    }

    /** All bytes not yet consumed. */
    function Rest(): string {
      if eof then buf else buf + Concat(unread) + last
    }

    function Left(): nat {
      if eof then 0 else |unread| + 1
    }
  }

  function Concat(parts: seq<string>): string {
    if parts == [] then "" else parts[0] + Concat(parts[1..])
  }

  /** A fresh scanner on a reader. */
  function Start(chunks: seq<string>, last: string): Source {
    Source("", chunks, last, false)
  }

  /** The split function on what is held. */
  function ScanHeld(s: Source): (r: Scanned)
    ensures r.advance <= |s.buf|
    ensures r.token.Some? ==> 0 < r.advance
  {
    ScanSpec(s.buf, s.eof)
  }

  /** The piece a split call consumes before io.EOF, if a whole one is held. */
  function Consumed(s: Source): seq<Option<string>> {
    if FirstEnd(s.buf) == |s.buf| then [] else [ScanHeld(s).token]
  }

  /** bufio.Scanner's step before io.EOF: a split call without a token makes it read more. */
  function Advance(s: Source): (t: Source)
    requires !s.eof
    ensures t.Left() < s.Left() || (t.Left() == s.Left() && |t.buf| < |s.buf|)
  {
    var r := ScanHeld(s);
    if r.token.Some? then s.Skip(r.advance) else s.Skip(r.advance).Fill()
  }

  /** The tokens bufio.Scanner hands out. After io.EOF the first split call without a token stops
      it, whatever it still holds. */
  function Tokens(s: Source): seq<string>
    decreases s.Left(), |s.buf|
  {
    if !s.eof then Somes(Consumed(s)) + Tokens(Advance(s))
    else
      var r := ScanHeld(s);
      if r.token.Some? then [r.token.value] + Tokens(s.Skip(r.advance)) else []
  }

  /** What the scanner holds when it sees io.EOF. */
  function Tail(s: Source): string
    decreases s.Left(), |s.buf|
  {
    if s.eof then s.buf else Tail(Advance(s))
  }

  /** Some piece is blank although a statement follows it. */
  predicate BlankBeforeStatement<T>(ms: seq<Option<T>>) {
    exists i, j :: 0 <= i < j < |ms| && ms[i].None? && ms[j].Some?
  }

  /** Two pieces are blank although a statement follows them. */
  predicate TwoBlanksBeforeStatement<T>(ms: seq<Option<T>>) {
    exists h, i, j :: 0 <= h < i < j < |ms| && ms[h].None? && ms[i].None? && ms[j].Some?
  }

  lemma {:induction false} NoSomes<T>(ms: seq<Option<T>>)
    ensures Somes(ms) == [] <==> forall j :: 0 <= j < |ms| ==> ms[j].None?
  {
    if ms != [] {
      NoSomes(ms[1..]);
      assert forall j :: 1 <= j < |ms| ==> ms[j] == ms[1..][j - 1];
    }
  }

  lemma BlankHead<T>(ms: seq<Option<T>>)
    requires ms != [] && ms[0].None?
    ensures Somes(ms) == Somes(ms[1..])
    ensures Somes(ms) == [] <==> !BlankBeforeStatement(ms)
  {
    NoSomes(ms);
  }

  lemma StatementHead<T>(ms: seq<Option<T>>)
    requires ms != [] && ms[0].Some?
    ensures Somes(ms) == [ms[0].value] + Somes(ms[1..])
    ensures BlankBeforeStatement(ms) <==> BlankBeforeStatement(ms[1..])
  {
    var qs := ms[1..];
    if BlankBeforeStatement(ms) {
      var i, j :| 0 <= i < j < |ms| && ms[i].None? && ms[j].Some?;
      assert qs[i - 1].None? && qs[j - 1].Some?;
    }
    if BlankBeforeStatement(qs) {
      var i, j :| 0 <= i < j < |qs| && qs[i].None? && qs[j].Some?;
      assert ms[i + 1].None? && ms[j + 1].Some?;
    }
  }

  /** The first ';' of a longer input is the one already held. */
  lemma PiecesOfHeld(buf: string, more: string)
    ensures var e := FirstEnd(buf);
            e < |buf| ==> Pieces(buf + more) == [buf[..e]] + Pieces(buf[e + 1..] + more)
  {
    var e := FirstEnd(buf);
    FirstEndEnds(buf);
    if e < |buf| {
      var x := buf + more;
      forall p | 0 <= p <= e
        ensures Ends(x, p) == Ends(buf, p)
      {
        EndsIsLocal(buf, more, p);
      }
      FirstEndIs(x, e);
      assert x[..e] == buf[..e] && x[e + 1..] == buf[e + 1..] + more;
    }
  }

  lemma RestOfFill(s: Source)
    requires !s.eof
    ensures s.Fill().Rest() == s.Rest()
  {
    if s.unread != [] {
      assert s.buf + s.unread[0] + Concat(s.unread[1..]) == s.buf + Concat(s.unread);
    } else {
      assert s.buf + Concat(s.unread) == s.buf;
    }
  }

  function MarksOf(x: string): seq<Option<string>> {
    Marks(Pieces(x))
  }

  /** What has not been read yet. */
  function More(s: Source): string {
    if s.eof then "" else Concat(s.unread) + s.last
  }

  lemma RestIs(s: Source)
    ensures s.Rest() == s.buf + More(s)
  {
    if s.eof {
      assert s.buf + "" == s.buf;
    } else {
      assert s.buf + Concat(s.unread) + s.last == s.buf + (Concat(s.unread) + s.last);
    }
  }

  lemma RestAfter(s: Source, n: nat)
    requires n <= |s.buf|
    ensures s.Skip(n).Rest() == s.buf[n..] + More(s)
  {
    RestIs(s.Skip(n));
  }

  lemma LastMark(x: string)
    requires FirstEnd(x) >= |x|
    ensures MarksOf(x) == [Token(x)]
  {
    assert [x][1..] == [];
  }

  /** One call of the split function takes the next piece off the reference split, or none. */
  lemma ScanPiece(s: Source)
    ensures var r := ScanHeld(s); var ms := MarksOf(s.Rest());
            if FirstEnd(s.buf) < |s.buf| then ms == [r.token] + MarksOf(s.Skip(r.advance).Rest())
            else if s.eof then ms == [r.token] && r.advance == |s.buf|
            else r.token == None && r.advance == 0
  {
    var e := FirstEnd(s.buf);
    if e < |s.buf| {
      RestIs(s);
      RestAfter(s, e + 1);
      MarksOfHeld(s.buf, More(s));
    } else if s.eof {
      LastMark(s.buf);
    }
  }

  lemma MarksOfHeld(buf: string, more: string)
    ensures var e := FirstEnd(buf);
            e < |buf| ==> MarksOf(buf + more) == [Token(buf[..e])] + MarksOf(buf[e + 1..] + more)
  {
    var e := FirstEnd(buf);
    if e < |buf| {
      PiecesOfHeld(buf, more);
      var qs := Pieces(buf[e + 1..] + more);
      assert ([buf[..e]] + qs)[1..] == qs;
    }
  }

  lemma OneMark<T>(m: Option<T>)
    ensures Somes([m]) == if m.Some? then [m.value] else []
    ensures !BlankBeforeStatement([m])
  {
  }

  function LeadingSomes<T>(ms: seq<Option<T>>): seq<T> {
    if ms == [] || ms[0].None? then [] else [ms[0].value] + LeadingSomes(ms[1..])
  }

  lemma {:induction false} LeadingSomesLose<T>(ms: seq<Option<T>>)
    ensures LeadingSomes(ms) <= Somes(ms)
    ensures LeadingSomes(ms) == Somes(ms) <==> !BlankBeforeStatement(ms)
  {
    if ms != [] {
      if ms[0].None? {
        BlankHead(ms);
      } else {
        LeadingSomesLose(ms[1..]);
        StatementHead(ms);
        assert Somes(ms)[1..] == Somes(ms[1..]) && LeadingSomes(ms)[1..] == LeadingSomes(ms[1..]);
      }
    }
  }

  lemma TokensOfNothing(s: Source)
    requires s.eof && s.buf == ""
    ensures Tokens(s) == []
  {
  }

  lemma TokensStepAtEof(s: Source)
    requires s.eof
    ensures Tokens(s)
            == Somes([ScanHeld(s).token]) + if ScanHeld(s).token.Some? then Tokens(s.Skip(ScanHeld(s).advance)) else []
  {
    OneMark(ScanHeld(s).token);
  }

  /** Once io.EOF is seen, the scanner emits the statements up to the first blank piece. */
  lemma {:induction false} TokensAtEof(s: Source)
    requires s.eof
    ensures Tokens(s) == LeadingSomes(MarksOf(s.buf))
    decreases |s.buf|
  {
    var ms := MarksOf(s.buf);
    var r := ScanHeld(s);
    var t := s.Skip(r.advance);
    ScanPiece(s);
    TokensStepAtEof(s);
    OneMark(r.token);
    if ms == [r.token] {
      if r.token.Some? { TokensOfNothing(t); }
    } else if r.token.Some? {
      TokensAtEof(t);
      assert ms[1..] == MarksOf(t.buf);
    }
  }

  /** The pieces consumed before io.EOF. */
  function Seen(s: Source): seq<Option<string>>
    decreases s.Left(), |s.buf|
  {
    if s.eof then [] else Consumed(s) + Seen(Advance(s))
  }

  lemma {:induction false} SomesConcat<T>(a: seq<Option<T>>, b: seq<Option<T>>)
    ensures Somes(a + b) == Somes(a) + Somes(b)
  {
    if a == [] {
      assert a + b == b;
    } else {
      SomesConcat(a[1..], b);
      assert (a + b)[1..] == a[1..] + b;
      ConcatAssoc(if a[0].Some? then [a[0].value] else [], Somes(a[1..]), Somes(b));
    }
  }

  lemma AdvanceRest(s: Source)
    requires !s.eof
    ensures MarksOf(s.Rest()) == Consumed(s) + MarksOf(Advance(s).Rest())
    ensures Consumed(s) == [] ==> Advance(s) == s.Fill()
    ensures Consumed(s) != [] && Consumed(s)[0].Some? ==> !Advance(s).eof
    ensures Advance(s).last == s.last || Advance(s).eof
  {
    ScanPiece(s);
    var t := s.Skip(ScanHeld(s).advance);
    RestOfFill(t);
    if Consumed(s) == [] { assert t == s; }
  }

  /** The pieces split at io.EOF. */
  lemma {:induction false} SeenAndTail(s: Source)
    ensures MarksOf(s.Rest()) == Seen(s) + MarksOf(Tail(s))
    decreases s.Left(), |s.buf|
  {
    if !s.eof {
      AdvanceRest(s);
      SeenAndTail(Advance(s));
    }
  }

  /** When io.EOF comes alone, only a blank piece or the end of the input led to it. */
  lemma {:induction false} BlankSeenOrLast(s: Source)
    requires !s.eof && s.last == ""
    ensures None in Seen(s) || |MarksOf(Tail(s))| == 1
    decreases s.Left(), |s.buf|
  {
    AdvanceRest(s);
    if !Advance(s).eof {
      BlankSeenOrLast(Advance(s));
    } else if Consumed(s) == [] {
      assert s.buf + "" == s.buf;
    }
  }

  lemma {:induction false} TokensSeen(s: Source)
    ensures Tokens(s) == Somes(Seen(s)) + LeadingSomes(MarksOf(Tail(s)))
    decreases s.Left(), |s.buf|
  {
    if s.eof {
      TokensAtEof(s);
    } else {
      TokensSeen(Advance(s));
      SomesConcat(Consumed(s), Seen(Advance(s)));
    }
  }

  /** With nothing left to read but io.EOF, at most one blank piece is consumed, the last one. */
  lemma {:induction false} OneBlankSeen(s: Source)
    requires !s.eof && s.unread == []
    ensures forall k :: 0 <= k < |Seen(s)| - 1 ==> Seen(s)[k].Some?
    decreases s.Left(), |s.buf|
  {
    AdvanceRest(s);
    if !Advance(s).eof {
      OneBlankSeen(Advance(s));
    }
  }

  lemma BlankInSuffix<T>(a: seq<Option<T>>, b: seq<Option<T>>)
    ensures BlankBeforeStatement(b) ==> BlankBeforeStatement(a + b)
    ensures BlankBeforeStatement(b) && None in a ==> TwoBlanksBeforeStatement(a + b)
    ensures |b| == 1 ==> !BlankBeforeStatement(b)
  {
    if BlankBeforeStatement(b) {
      var i, j :| 0 <= i < j < |b| && b[i].None? && b[j].Some?;
      var c := a + b;
      assert c[|a| + i].None? && c[|a| + j].Some?;
      if None in a {
        var h :| 0 <= h < |a| && a[h] == None;
        assert c[h].None?;
      }
    }
  }

  lemma SecondBlankInSuffix<T>(a: seq<Option<T>>, b: seq<Option<T>>)
    requires forall k :: 0 <= k < |a| - 1 ==> a[k].Some?
    requires TwoBlanksBeforeStatement(a + b)
    ensures BlankBeforeStatement(b)
  {
    var c := a + b;
    var h, i, j :| 0 <= h < i < j < |c| && c[h].None? && c[i].None? && c[j].Some?;
    assert b[i - |a|].None? && b[j - |a|].Some?;
  }

  // ---------------------------------------------------------------- the main results

  /** For every way of cutting the input into reads: no statement is invented or reordered, and
      none is lost exactly when, in what is held at io.EOF, no blank piece precedes a statement. */
  lemma TokensAreStatements(s: Source)
    ensures Tokens(s) <= Statements(s.Rest())
    ensures Tokens(s) == Statements(s.Rest()) <==> !BlankBeforeStatement(MarksOf(Tail(s)))
  {
    TokensSeen(s);
    SeenAndTail(s);
    SomesConcat(Seen(s), MarksOf(Tail(s)));
    LeadingSomesLose(MarksOf(Tail(s)));
    SameHead(Somes(Seen(s)), LeadingSomes(MarksOf(Tail(s))), Somes(MarksOf(Tail(s))));
  }

  lemma SameHead<T>(h: seq<T>, a: seq<T>, b: seq<T>)
    requires a <= b
    ensures h + a <= h + b
    ensures h + a == h + b <==> a == b
  {
    assert (h + a)[|h|..] == a && (h + b)[|h|..] == b;
  }

  predicate Reads(x: string, chunks: seq<string>, last: string) {
    Concat(chunks) + last == x
  }

  lemma StartHolds(x: string, chunks: seq<string>, last: string)
    requires Reads(x, chunks, last)
    ensures Start(chunks, last).Rest() == x
  {
    assert "" + Concat(chunks) == Concat(chunks);
  }

  /** A reader may deliver io.EOF with the last bytes: the split is the reference one for every
      cutting exactly when no blank piece of the input precedes a statement. */
  lemma ChunkIndependentExactly(x: string)
    ensures (forall chunks, last | Reads(x, chunks, last) :: Tokens(Start(chunks, last)) == Statements(x))
      <==> !BlankBeforeStatement(MarksOf(x))
  {
    forall chunks, last | Reads(x, chunks, last) && !BlankBeforeStatement(MarksOf(x))
      ensures Tokens(Start(chunks, last)) == Statements(x)
    {
      var s := Start(chunks, last);
      StartHolds(x, chunks, last);
      TokensAreStatements(s);
      SeenAndTail(s);
      BlankInSuffix(Seen(s), MarksOf(Tail(s)));
    }
    if BlankBeforeStatement(MarksOf(x)) {
      var s := Start([], x);
      assert Reads(x, [], x);
      StartHolds(x, [], x);
      TokensAreStatements(s);
      assert Advance(s) == s.Fill();
      assert s.Fill().buf == x;
      assert Tail(s) == x;
    }
  }

  /** A file delivers io.EOF alone: every cutting of it into reads gives the reference split
      exactly when reading it at once does, that is exactly when no two blank pieces precede a
      statement. */
  lemma FileSplitExactly(x: string)
    ensures Tokens(Start([x], "")) == Statements(x) <==> !TwoBlanksBeforeStatement(MarksOf(x))
    ensures (forall chunks | Reads(x, chunks, "") :: Tokens(Start(chunks, "")) == Statements(x))
      <==> !TwoBlanksBeforeStatement(MarksOf(x))
  {
    forall chunks | Reads(x, chunks, "")
      ensures !TwoBlanksBeforeStatement(MarksOf(x)) ==> Tokens(Start(chunks, "")) == Statements(x)
    {
      var s := Start(chunks, "");
      StartHolds(x, chunks, "");
      TokensAreStatements(s);
      SeenAndTail(s);
      BlankSeenOrLast(s);
      BlankInSuffix(Seen(s), MarksOf(Tail(s)));
    }
    assert Reads(x, [x], "");
    if TwoBlanksBeforeStatement(MarksOf(x)) {
      var s := Start([x], "");
      var t := Source(x, [], "", false);
      assert Advance(s) == s.Fill();
      assert s.Fill() == t;
      TokensAreStatements(t);
      SeenAndTail(t);
      OneBlankSeen(t);
      assert t.Rest() == x;
      SecondBlankInSuffix(Seen(t), MarksOf(Tail(t)));
      assert Tokens(s) == Tokens(t);
    }
  }

  lemma AdvanceOver(p: string, more: string, unread: seq<string>)
    requires Whole(p) && Closable(p)
    ensures var s := Source(p + ";" + more, unread, "", false);
            var t := Source(more, unread, "", false);
            Advance(s) == if Blank(p) then t.Fill() else t
  {
    var s := Source(p + ";" + more, unread, "", false);
    FirstEndOfJoin(p, more);
    assert s.buf[..|p|] == p && s.buf[|p| + 1..] == more;
  }

  lemma SmallWord(c: char)
    requires !Special(c) && !IsSpace(c)
    ensures Whole("") && Closable("") && Token("") == None
    ensures Whole([c]) && Closable([c]) && Token([c]) == Some([c])
  {
    assert [c][..0] == "" && [c][..1] == [c];
  }

  predicate Word(w: string) {
    Whole(w) && Closable(w) && Token(w).Some?
  }

  function ThreeWords(a: string, b: string, c: string): string {
    Join([a, "", b, "", c], ";")
  }

  lemma ExampleMarks(a: string, b: string, c: string)
    requires Word(a) && Word(b) && Word(c)
    ensures MarksOf(ThreeWords(a, b, c)) == [Token(a), None, Token(b), None, Token(c)]
  {
    SmallWord('a');
    var ps := [a, "", b, "", c];
    CutIsPieces(ps);
    assert ps[1..] == ["", b, "", c] && ps[1..][1..] == [b, "", c];
    assert ps[1..][1..][1..] == ["", c] && ps[1..][1..][1..][1..] == [c];
    assert Marks([c]) == [Token(c)];
    assert Token("") == None;
    assert Marks(["", c]) == [None, Token(c)];
    assert Marks([b, "", c]) == [Token(b)] + [None, Token(c)];
    assert Marks(["", b, "", c]) == [None] + [Token(b), None, Token(c)];
    assert Marks(ps) == [Token(a)] + [None, Token(b), None, Token(c)];
  }

  lemma ExampleReads(a: string, b: string, c: string)
    ensures Reads(ThreeWords(a, b, c), [a + ";" + ";", b + ";" + ";", c], "")
  {
    var chunks := [a + ";" + ";", b + ";" + ";", c];
    var ps := [a, "", b, "", c];
    assert ps[1..] == ["", b, "", c] && ps[1..][1..] == [b, "", c];
    assert ps[1..][1..][1..] == ["", c] && ps[1..][1..][1..][1..] == [c];
    var right := Join([b, "", c], ";");
    assert right == b + ";" + ";" + c by { assert Join(["", c], ";") == "" + ";" + c; }
    assert ThreeWords(a, b, c) == a + ";" + ";" + right by { assert Join(["", b, "", c], ";") == "" + ";" + right; }
    assert chunks[1..] == [b + ";" + ";", c] && chunks[1..][1..] == [c];
    assert Concat([c]) == c;
    assert Concat(chunks[1..]) == right;
  }

  /** The loss is real. Read at once, "a;;b;;c" gives a different list than the same bytes in
      three reads, which give every statement. */
  lemma DroppedStatement(a: string, b: string, c: string)
    requires Word(a) && Word(b) && Word(c)
    ensures var x := ThreeWords(a, b, c); var chunks := [a + ";" + ";", b + ";" + ";", c];
            && Tokens(Start([x], "")) != Statements(x)
            && Reads(x, chunks, "") && Tokens(Start(chunks, "")) == Statements(x)
  {
    var x := ThreeWords(a, b, c);
    ExampleMarks(a, b, c);
    var ms := [Token(a), None, Token(b), None, Token(c)];
    assert ms[1].None? && ms[3].None? && ms[4].Some?;
    FileSplitExactly(x);
    ExampleReads(a, b, c);
    ExampleTail(a, b, c);
    var chunks := [a + ";" + ";", b + ";" + ";", c];
    var s := Start(chunks, "");
    StartHolds(x, chunks, "");
    TokensAreStatements(s);
    assert "" + (a + ";" + ";") == a + ";" + ";" && chunks[1..] == [b + ";" + ";", c];
    assert s.Fill() == Source(a + ";" + ";", [b + ";" + ";", c], "", false);
    EmptyStart(s);
    BlankInSuffix([], Marks([c]));
  }

  lemma EmptyStart(s: Source)
    requires !s.eof && s.buf == ""
    ensures Advance(s) == s.Fill() && Tail(s) == Tail(s.Fill())
  {
  }

  lemma ExampleTail(a: string, b: string, c: string)
    requires Word(a) && Word(b) && Word(c)
    ensures Tail(Source(a + ";" + ";", [b + ";" + ";", c], "", false)) == c
  {
    SmallWord('a');
    var t := Source(b + ";" + ";", [c], "", false);
    AfterWord(a, [b + ";" + ";", c]);
    assert "" + (b + ";" + ";") == b + ";" + ";";
    assert Source("", [b + ";" + ";", c], "", false).Fill() == t;
    AfterWord(b, [c]);
    var u := Source(c, [], "", false);
    assert "" + c == c;
    assert Source("", [c], "", false).Fill() == u;
    assert Advance(u) == u.Fill();
    assert u.Fill() == Source(c, [], "", true) by { assert c + "" == c; }
  }

  lemma AfterWord(w: string, unread: seq<string>)
    requires Word(w)
    ensures Tail(Source(w + ";" + ";", unread, "", false)) == Tail(Source("", unread, "", false).Fill())
  {
    SmallWord('a');
    AdvanceOver(w, ";", unread);
    AdvanceOver("", "", unread);
    assert "" + ";" + "" == ";";
  }

  // ---------------------------------------------------------------- the normal form

  /** A statement as the splitter returns it: trimmed, not blank, and not cut any further. */
  predicate Stated(t: string) {
    t != "" && Trim(t) == t && Whole(t)
  }

  /** Only the last statement may be left unterminated; the others end once a newline, which
      trimming may have taken from a line comment, is put back. */
  predicate NormalForm(ts: seq<string>) {
    && (forall i :: 0 <= i < |ts| ==> Stated(ts[i]))
    && (forall i :: 0 <= i < |ts| - 1 ==> Closable(ts[i] + "\n"))
  }

  /** Inside a block comment or a quoted string. */
  predicate Shut(s: Lex) {
    s.BlockComment? || s.BlockStar? || ((s.Quote? || s.QuoteEscaped?) && (s.q == '\'' || s.q == '"'))
  }

  lemma {:induction false} LexAfter(w: string)
    ensures Open(Run(Normal, w)) || Run(Normal, w) == LineComment || Shut(Run(Normal, w))
  {
    if w != "" { LexAfter(w[..|w| - 1]); }
  }

  lemma {:induction false} SpacesFromNormal(l: string)
    requires AllSpace(l)
    ensures Run(Normal, l) == Normal
  {
    if l != "" { SpacesFromNormal(l[..|l| - 1]); }
  }

  lemma {:induction false} SpacesKeepShut(s: Lex, r: string)
    requires AllSpace(r) && Shut(s)
    ensures Shut(Run(s, r))
  {
    if r != "" { SpacesKeepShut(s, r[..|r| - 1]); }
  }

  lemma TrimSplits(p: string) returns (l: string, r: string)
    ensures p == l + (Trim(p) + r) && AllSpace(l) && AllSpace(r)
    ensures var t := Trim(p); t != "" ==> !IsSpace(t[0]) && !IsSpace(t[|t| - 1])
  {
    var m := TrimLeft(p);
    SpacesFromSplits(p, 0);
    SpacesBackSplits(m, |m|);
    l, r := p[..|p| - |m|], m[|Trim(p)|..];
    assert m == Trim(p) + r;
    assert p == l + m;
  }

  lemma TrimFixed(t: string)
    requires t != "" && !IsSpace(t[0]) && !IsSpace(t[|t| - 1])
    ensures Trim(t) == t && Trim(t + "\n") == t
  {
    var u := t + "\n";
    assert TrimLeft(t) == t && TrimLeft(u) == u;
    assert SpacesBack(t, |t|) == |t| && SpacesBack(u, |t|) == |t|;
  }

  /** Trimming keeps a piece whole, and a newline lets it end again if it could end before. */
  lemma TrimmedPiece(p: string)
    requires Whole(p) && !Blank(p)
    ensures Stated(Trim(p)) && Token(Trim(p) + "\n") == Some(Trim(p))
    ensures Closable(p) ==> Closable(Trim(p) + "\n")
  {
    var t := Trim(p);
    var l, r := TrimSplits(p);
    TrimFixed(t);
    SpacesFromNormal(l);
    TrimmedWhole(p, l, t, r);
    LexAfter(t);
    if Shut(Run(Normal, t)) {
      TrimmedShut(p, l, t, r);
    }
    assert (t + "\n")[..|t|] == t;
  }

  lemma TrimmedWhole(p: string, l: string, t: string, r: string)
    requires Whole(p) && p == l + (t + r) && Run(Normal, l) == Normal
    ensures Whole(t)
  {
    FirstEndEnds(p);
    forall k | 0 <= k < |t|
      ensures !Ends(t, k)
    {
      assert p[..|l| + k] == l + t[..k];
      RunConcat(Normal, l, t[..k]);
      assert !Ends(p, |l| + k);
    }
    FirstEndIs(t, |t|);
  }

  /** A piece that ends inside a string or a block comment does so when trimmed, too. */
  lemma TrimmedShut(p: string, l: string, t: string, r: string)
    requires p == l + (t + r) && Run(Normal, l) == Normal && AllSpace(r) && Shut(Run(Normal, t))
    ensures !Closable(p)
  {
    RunConcat(Normal, l, t + r);
    RunConcat(Normal, t, r);
    SpacesKeepShut(Run(Normal, t), r);
  }

  lemma {:induction false} MarksNormal(ps: seq<string>)
    requires Cut(ps)
    ensures NormalForm(Somes(Marks(ps)))
    decreases |ps|
  {
    var qs := ps[1..];
    var rest := Somes(Marks(qs));
    if |ps| > 1 {
      MarksNormal(qs);
    }
    if Blank(ps[0]) {
      assert Somes(Marks(ps)) == rest;
    } else {
      TrimmedPiece(ps[0]);
      assert Somes(Marks(ps)) == [Trim(ps[0])] + rest;
    }
  }

  /** The pieces of the joined text. */
  function Padded(ts: seq<string>): (ps: seq<string>)
    ensures |ps| == |ts|
  {
    if |ts| <= 1 then ts else [ts[0] + "\n"] + Padded(ts[1..])
  }

  function Somed(ts: seq<string>): seq<Option<string>> {
    if ts == [] then [] else [Some(ts[0])] + Somed(ts[1..])
  }

  lemma {:induction false} SomedAll(ts: seq<string>)
    ensures Somes(Somed(ts)) == ts && !BlankBeforeStatement(Somed(ts))
  {
    if ts != [] {
      SomedAll(ts[1..]);
      StatementHead(Somed(ts));
    }
  }

  lemma StatedPadded(t: string)
    requires Stated(t)
    ensures Whole(t + "\n") && Token(t + "\n") == Some(t)
  {
    var u := t + "\n";
    TrimmedPiece(t);
    FirstEndEnds(t);
    forall k | 0 <= k < |t|
      ensures !Ends(u, k)
    {
      EndsIsLocal(t, "\n", k);
    }
    FirstEndIs(u, |u|);
  }

  lemma {:induction false} PaddedCut(ts: seq<string>)
    requires NormalForm(ts) && ts != []
    ensures Cut(Padded(ts)) && Join(Padded(ts), ";") == Join(ts, "\n;") && Marks(Padded(ts)) == Somed(ts)
    decreases |ts|
  {
    if |ts| == 1 {
      assert Marks(ts) == [Token(ts[0])] + Marks([]);
    } else {
      var rest := ts[1..];
      PaddedCut(rest);
      StatedPadded(ts[0]);
      var qs := Padded(rest);
      var ps := Padded(ts);
      assert ps[1..] == qs && ps[0] == ts[0] + "\n";
      assert Marks(ps) == [Some(ts[0])] + Somed(rest);
      assert ts[0] + "\n" + ";" == ts[0] + "\n;";
      assert Join(ps, ";") == ps[0] + ";" + Join(qs, ";");
    }
  }

  lemma JoinedStatements(ts: seq<string>)
    requires NormalForm(ts)
    ensures Statements(Join(ts, "\n;")) == ts && !BlankBeforeStatement(MarksOf(Join(ts, "\n;")))
  {
    if ts == [] {
      assert Pieces("") == [""];
      assert MarksOf("") == Marks([""]);
      assert Marks([""]) == [Token("")] + Marks([]);
    } else {
      PaddedCut(ts);
      CutIsPieces(Padded(ts));
      SomedAll(ts);
    }
  }

  /** Splitting is idempotent through joining: whatever list a reader of any text gave, the text
      that joins it gives it again, in whichever way that text is cut into reads. */
  lemma SplitJoinSplit(chunks: seq<string>, last: string, again: seq<string>, againLast: string)
    requires Reads(Join(Tokens(Start(chunks, last)), "\n;"), again, againLast)
    ensures Tokens(Start(again, againLast)) == Tokens(Start(chunks, last))
  {
    var s := Start(chunks, last);
    var ts := Tokens(s);
    TokensAreStatements(s);
    PiecesCut(s.Rest());
    MarksNormal(Pieces(s.Rest()));
    assert NormalForm(ts);
    JoinedStatements(ts);
    ChunkIndependentExactly(Join(ts, "\n;"));
  }

  // ---------------------------------------------------------------- SplitQueries

  lemma ScanStep(s: Source)
    ensures var r := ScanHeld(s); var t := s.Skip(r.advance);
            && (r.token.Some? ==> Tokens(s) == [r.token.value] + Tokens(t))
            && (r.token.None? ==> Tokens(s) == if s.eof then [] else Tokens(t.Fill()))
            && (s.buf == "" && !s.eof ==> r.token.None? && t == s)
  {
    OneMark(ScanHeld(s).token);
  }

  /** bufio.Scanner with ScanSqlStmt as its split function. */
  class Scanner {
    var buf: string
    var unread: seq<string>
    var last: string
    var eof: bool
    var token: string

    function Held(): Source
      reads this
    {
      Source(buf, unread, last, eof)
    }

    constructor (chunks: seq<string>, final: string)
      ensures Held() == Start(chunks, final)
    {
      buf, unread, last, eof, token := "", chunks, final, false, "";
    }

    method Read()
      requires !eof
      modifies this
      ensures Held() == old(Held().Fill())
    {
      if unread == [] {
        buf, last, eof := buf + last, "", true;
      } else {
        buf, unread := buf + unread[0], unread[1..];
      }
    }

    /** Advances to the next token; false when the scan stops. */
    method Scan() returns (ok: bool)
      modifies this
      ensures ok ==> old(Tokens(Held())) == [token] + Tokens(Held())
      ensures ok ==> Held().Left() < old(Held().Left()) || (Held().Left() == old(Held().Left()) && |buf| < old(|buf|))
      ensures !ok ==> old(Tokens(Held())) == []
    {
      while true
        invariant Tokens(Held()) == old(Tokens(Held()))
        invariant Held() == old(Held()) || Held().Left() < old(Held().Left())
        decreases Held().Left()
      {
        ghost var s := Held();
        ScanStep(s);
        if buf != "" || eof {
          var advance, found := ScanSqlStmt(buf, eof);
          ghost var r := ScanHeld(s);
          buf := buf[advance..];
          if found.Some? {
            token := found.value;
            assert Held() == s.Skip(r.advance);
            return true;
          }
        }
        if eof {
          buf := "";
          return false;
        }
        Read();
      }
    }
  }

  lemma TakeOne(stmts: seq<string>, token: string, rest: seq<string>)
    ensures stmts + ([token] + rest) == (stmts + [token]) + rest
  {
  }

  method SplitQueries(chunks: seq<string>, last: string) returns (stmts: seq<string>)
    ensures stmts == Tokens(Start(chunks, last))
  {
    var scanner := new Scanner(chunks, last);
    ghost var all := Tokens(Start(chunks, last));
    stmts := [];
    var more := scanner.Scan();
    while more
      invariant all == stmts + if more then [scanner.token] + Tokens(scanner.Held()) else []
      decreases more, scanner.Held().Left(), |scanner.buf|
    {
      TakeOne(stmts, scanner.token, Tokens(scanner.Held()));
      stmts := stmts + [scanner.token];
      more := scanner.Scan();
    }
  }
}
