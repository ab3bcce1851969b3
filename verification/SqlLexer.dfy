/** The statement scanner of prestoapi/query_splitter.go, and the byte-at-a-time automaton
    it must agree with. A buffer of bytes is a `string`; every byte the scanner compares
    with is ASCII. */
module SqlLexer {

  import opened Wrappers

  /** What the automaton knows after reading a prefix of the input. */
  datatype Lex =
    | Normal
    | Dash
    | Slash
    | LineComment
    | BlockComment
    | BlockStar
    | Quote(q: char)
    | QuoteEscaped(q: char)

  /** Neither inside a comment nor inside a quoted string: a ';' ends the statement here. */
  predicate Open(s: Lex) {
    s.Normal? || s.Dash? || s.Slash?
  }

  function StepOpen(c: char): Lex {
    if c == '-' then Dash
    else if c == '/' then Slash
    else if c == '\'' || c == '"' then Quote(c)
    else Normal
  }

  function Step(s: Lex, c: char): Lex {
    match s
    case Normal => StepOpen(c)
    case Dash => if c == '-' then LineComment else StepOpen(c)
    case Slash => if c == '*' then BlockComment else StepOpen(c)
    case LineComment => if c == '\n' then Normal else LineComment
    case BlockComment => if c == '*' then BlockStar else BlockComment
    case BlockStar => if c == '/' then Normal else if c == '*' then BlockStar else BlockComment
    case Quote(q) => if c == q then Normal else if c == '\\' then QuoteEscaped(q) else Quote(q)
    case QuoteEscaped(q) => Quote(q)
  }

  /** The automaton's state after reading `w` from state `s`. */
  function Run(s: Lex, w: string): Lex {
    if w == "" then s else Step(Run(s, w[..|w| - 1]), w[|w| - 1])
  }

  /** The automaton's state when it is about to read position `p` of `data`. */
  function At(data: string, p: nat): Lex
    requires p <= |data|
  {
    Run(Normal, data[..p])
  }

  /** Position `p` holds a ';' that the automaton reads outside comments and quotes. */
  predicate Ends(data: string, p: nat) {
    p < |data| && data[p] == ';' && Open(At(data, p))
  }

  predicate NoEnd(data: string, a: nat, b: nat) {
    forall p :: a <= p < b ==> !Ends(data, p)
  }

  lemma AtNext(data: string, p: nat)
    requires p < |data|
    ensures At(data, p + 1) == Step(At(data, p), data[p])
  {
    var w := data[..p + 1];
    assert w[..|w| - 1] == data[..p];
  }

  lemma {:induction false} RunConcat(s: Lex, a: string, b: string)
    ensures Run(s, a + b) == Run(Run(s, a), b)
    decreases |b|
  {
    if b == "" {
      assert a + b == a;
    } else {
      var w := a + b;
      assert w[..|w| - 1] == a + b[..|b| - 1];
      RunConcat(s, a, b[..|b| - 1]);
    }
  }

  // ---------------------------------------------------------------- the first terminator

  /** The first position at or after `from` that ends a statement, or |data|. */
  function FirstEndFrom(data: string, from: nat): (r: nat)
    requires from <= |data|
    ensures from <= r <= |data|
    decreases |data| - from
  {
    if from == |data| || Ends(data, from) then from else FirstEndFrom(data, from + 1)
  }

  function FirstEnd(data: string): (r: nat)
    ensures r <= |data|
  {
    FirstEndFrom(data, 0)
  }

  lemma FirstEndFromEnds(data: string, from: nat)
    requires from <= |data|
    ensures var r := FirstEndFrom(data, from); (r < |data| ==> Ends(data, r)) && NoEnd(data, from, r)
    decreases |data| - from
  {
    if from < |data| && !Ends(data, from) {
      FirstEndFromEnds(data, from + 1);
    }
  }

  /** The first terminator: it ends a statement, and nothing before it does. */
  lemma FirstEndEnds(data: string)
    ensures var r := FirstEnd(data); (r < |data| ==> Ends(data, r)) && NoEnd(data, 0, r)
  {
    FirstEndFromEnds(data, 0);
  }

  lemma FirstEndIs(data: string, e: nat)
    requires e <= |data|
    requires e < |data| ==> Ends(data, e)
    requires forall p :: 0 <= p < e ==> !Ends(data, p)
    ensures FirstEnd(data) == e
  {
    FirstEndEnds(data);
  }

  /** What has been read decides the first terminator: later bytes cannot move it. */
  lemma EndsIsLocal(data: string, more: string, p: nat)
    requires p < |data|
    ensures Ends(data + more, p) == Ends(data, p)
  {
    assert (data + more)[..p] == data[..p];
  }

  // ---------------------------------------------------------------- white space

  predicate IsSpace(c: char) {
    c == ' ' || c == '\t' || c == '\n' || c == '\U{0B}' || c == '\U{0C}' || c == '\r'
  }

  predicate AllSpace(s: string) {
    forall k :: 0 <= k < |s| ==> IsSpace(s[k])
  }

  /** The first position at or after `i` that is not white space. */
  function SpacesFrom(s: string, i: nat): (r: nat)
    requires i <= |s|
    ensures i <= r <= |s|
    decreases |s| - i
  {
    if i < |s| && IsSpace(s[i]) then SpacesFrom(s, i + 1) else i
  }

  /** The end of `s` up to `j` without trailing white space. */
  function SpacesBack(s: string, j: nat): (r: nat)
    requires j <= |s|
    ensures r <= j
  {
    if j > 0 && IsSpace(s[j - 1]) then SpacesBack(s, j - 1) else j
  }

  function TrimLeft(s: string): string {
    s[SpacesFrom(s, 0)..]
  }

  function TrimRight(s: string): string {
    s[..SpacesBack(s, |s|)]
  }

  lemma {:induction false} SpacesFromSplits(s: string, i: nat)
    requires i <= |s|
    ensures var r := SpacesFrom(s, i); (r < |s| ==> !IsSpace(s[r])) && forall k :: i <= k < r ==> IsSpace(s[k])
    decreases |s| - i
  {
    if i < |s| && IsSpace(s[i]) { SpacesFromSplits(s, i + 1); }
  }

  lemma {:induction false} SpacesBackSplits(s: string, j: nat)
    requires j <= |s|
    ensures var r := SpacesBack(s, j); (r > 0 ==> !IsSpace(s[r - 1])) && forall k :: r <= k < j ==> IsSpace(s[k])
  {
    if j > 0 && IsSpace(s[j - 1]) { SpacesBackSplits(s, j - 1); }
  }

  /** strings.TrimSpace on ASCII white space. */
  function Trim(s: string): string {
    TrimRight(TrimLeft(s))
  }

  predicate Blank(s: string) {
    Trim(s) == ""
  }

  function Token(s: string): Option<string> {
    if Blank(s) then None else Some(Trim(s))
  }

  datatype Scanned = Scanned(advance: nat, token: Option<string>)

  /** What the scanner must return: the bytes to consume and the statement found in them. */
  function ScanSpec(data: string, atEof: bool): Scanned {
    var e := FirstEnd(data);
    if e < |data| then Scanned(e + 1, Token(data[..e]))
    else if atEof then Scanned(|data|, Token(data))
    else Scanned(0, None)
  }

  // ---------------------------------------------------------------- the jumping scanner

  predicate Special(c: char) {
    c == '-' || c == '\'' || c == '"' || c == ';' || c == '/'
  }

  /** bytes.IndexByte on data[from..], as an absolute position; |data| when absent. */
  function IndexByte(data: string, from: nat, b: char): (r: nat)
    requires from <= |data|
    ensures from <= r <= |data|
    ensures r < |data| ==> data[r] == b
    ensures forall k :: from <= k < r ==> data[k] != b
    decreases |data| - from
  {
    if from == |data| || data[from] == b then from else IndexByte(data, from + 1, b)
  }

  /** bytes.IndexAny on data[from..] for the bytes that matter outside comments and quotes. */
  function IndexSpecial(data: string, from: nat): (r: nat)
    requires from <= |data|
    ensures from <= r <= |data|
    ensures r < |data| ==> Special(data[r])
    ensures forall k :: from <= k < r ==> !Special(data[k])
    decreases |data| - from
  {
    if from == |data| || Special(data[from]) then from else IndexSpecial(data, from + 1)
  }

  /** The number of backslashes that `w` ends with. */
  function TrailingBackslashes(w: string): nat {
    if w == "" || w[|w| - 1] != '\\' then 0 else 1 + TrailingBackslashes(w[..|w| - 1])
  }

  /** Skipping to the next newline stays inside the line comment. */
  lemma {:induction false} JumpLine(data: string, a: nat, b: nat)
    requires a <= b <= |data|
    requires At(data, a) == LineComment
    requires forall k :: a <= k < b ==> data[k] != '\n'
    ensures At(data, b) == LineComment
    ensures NoEnd(data, a, b)
    decreases b
  {
    if a < b {
      JumpLine(data, a, b - 1);
      AtNext(data, b - 1);
    }
  }

  /** Skipping to the next '*' stays inside the block comment. */
  lemma {:induction false} JumpBlock(data: string, a: nat, b: nat)
    requires a <= b <= |data|
    requires At(data, a) == BlockComment || (At(data, a) == BlockStar && a < |data| && data[a] != '/')
    requires forall k :: a <= k < b ==> data[k] != '*'
    ensures At(data, b) == BlockComment || (b == a && At(data, b) == BlockStar)
    ensures NoEnd(data, a, b)
    decreases b
  {
    if a < b {
      JumpBlock(data, a, b - 1);
      AtNext(data, b - 1);
    }
  }

  /** Skipping to the next special byte leaves the automaton where a ';' would count. */
  lemma {:induction false} JumpOpen(data: string, a: nat, b: nat)
    requires a <= b <= |data|
    requires Open(At(data, a))
    requires At(data, a) == Slash && a < |data| ==> data[a] != '*'
    requires forall k :: a <= k < b ==> !Special(data[k])
    ensures At(data, b) == if a == b then At(data, a) else Normal
    ensures NoEnd(data, a, b)
    decreases b
  {
    if a < b {
      JumpOpen(data, a, b - 1);
      AtNext(data, b - 1);
    }
  }

  /** Skipping to the next quote byte stays inside the quoted string, and an odd run of
      backslashes before that position is exactly a pending escape. */
  lemma {:induction false} JumpQuote(data: string, q: char, a: nat, b: nat)
    requires 0 < a <= b <= |data|
    requires q == '\'' || q == '"'
    requires data[a - 1] == q && At(data, a) == Quote(q)
    requires forall k :: a <= k < b ==> data[k] != q
    ensures At(data, b) == if TrailingBackslashes(data[..b]) % 2 == 1 then QuoteEscaped(q) else Quote(q)
    ensures NoEnd(data, a, b)
    decreases b
  {
    assert data[..b][|data[..b]| - 1] == data[b - 1];
    if a < b {
      JumpQuote(data, q, a, b - 1);
      AtNext(data, b - 1);
      assert data[..b][..b - 1] == data[..b - 1];
    }
  }

  /** The backward count at query_splitter.go:52-55. */
  method CountBackslashes(data: string, pos: nat) returns (n: nat)
    requires pos <= |data|
    ensures n == TrailingBackslashes(data[..pos])
  {
    n := 0;
    var j: int := pos - 1;
    while j >= 0 && data[j] == '\\'
      invariant -1 <= j < pos
      invariant TrailingBackslashes(data[..pos]) == n + TrailingBackslashes(data[..j + 1])
      decreases j
    {
      assert data[..j + 1][..j] == data[..j];
      n := n + 1;
      j := j - 1;
    }
  }

  /** What the scanner's four mode variables say about the automaton at position `pos`. */
  predicate ModeAt(data: string, pos: nat, inQuote: Option<char>, inComment: bool, inBlock: bool)
    requires pos <= |data|
  {
    var s := At(data, pos);
    if inComment then s == LineComment && inQuote == None && !inBlock
    else if inBlock then
      inQuote == None && (s == BlockComment || (s == BlockStar && pos < |data| && data[pos] != '/'))
    else if inQuote.Some? then
      && (inQuote.value == '\'' || inQuote.value == '"')
      && 0 < pos && data[pos - 1] == inQuote.value && s == Quote(inQuote.value)
    else
      && Open(s)
      && (s == Dash && pos < |data| ==> data[pos] != '-')
      && (s == Slash && pos < |data| ==> data[pos] != '*')
  }

  /** One iteration inside a line comment. */
  lemma FromComment(data: string, pos: nat, i: nat)
    requires pos <= i <= |data| && ModeAt(data, pos, None, true, false)
    requires forall k :: pos <= k < i ==> data[k] != '\n'
    ensures NoEnd(data, pos, i)
    ensures i < |data| && data[i] == '\n' ==> NoEnd(data, pos, i + 1) && ModeAt(data, i + 1, None, false, false)
  {
    JumpLine(data, pos, i);
    if i < |data| { AtNext(data, i); }
  }

  /** One iteration inside a block comment. */
  lemma FromBlock(data: string, pos: nat, i: nat)
    requires pos <= i <= |data| && ModeAt(data, pos, None, false, true)
    requires forall k :: pos <= k < i ==> data[k] != '*'
    ensures NoEnd(data, pos, i)
    ensures i < |data| && data[i] == '*' ==> NoEnd(data, pos, i + 1)
    ensures i + 1 < |data| && data[i] == '*' ==>
              if data[i + 1] == '/' then NoEnd(data, pos, i + 2) && ModeAt(data, i + 2, None, false, false)
              else ModeAt(data, i + 1, None, false, true)
  {
    JumpBlock(data, pos, i);
    if i < |data| { AtNext(data, i); }
    if i + 1 < |data| { AtNext(data, i + 1); }
  }

  /** One iteration inside a quoted string. */
  lemma FromQuote(data: string, pos: nat, q: char, i: nat)
    requires pos <= i <= |data| && ModeAt(data, pos, Some(q), false, false)
    requires forall k :: pos <= k < i ==> data[k] != q
    ensures NoEnd(data, pos, i)
    ensures i < |data| && data[i] == q ==>
              && NoEnd(data, pos, i + 1)
              && ModeAt(data, i + 1, if TrailingBackslashes(data[..i]) % 2 == 0 then None else Some(q), false, false)
  {
    JumpQuote(data, q, pos, i);
    if i < |data| { AtNext(data, i); }
  }

  /** One iteration outside comments and quotes. */
  lemma FromOpen(data: string, pos: nat, i: nat)
    requires pos <= i <= |data| && ModeAt(data, pos, None, false, false)
    requires forall k :: pos <= k < i ==> !Special(data[k])
    ensures NoEnd(data, pos, i)
    ensures i < |data| && data[i] == ';' ==> Ends(data, i)
    ensures i < |data| && data[i] != ';' ==> NoEnd(data, pos, i + 1)
    ensures i < |data| && (data[i] == '\'' || data[i] == '"') ==> ModeAt(data, i + 1, Some(data[i]), false, false)
    ensures i < |data| && data[i] == '-' ==>
              if i + 1 < |data| && data[i + 1] == '-'
              then NoEnd(data, pos, i + 2) && ModeAt(data, i + 2, None, true, false)
              else ModeAt(data, i + 1, None, false, false)
    ensures i < |data| && data[i] == '/' ==>
              if i + 1 < |data| && data[i + 1] == '*'
              then NoEnd(data, pos, i + 2) && ModeAt(data, i + 2, None, false, true)
              else ModeAt(data, i + 1, None, false, false)
  {
    JumpOpen(data, pos, i);
    if i < |data| { AtNext(data, i); }
    if i + 1 < |data| { AtNext(data, i + 1); }
  }

  lemma ScanSpecIs(data: string, e: nat, atEof: bool)
    requires e <= |data| && NoEnd(data, 0, e)
    requires e < |data| ==> Ends(data, e)
    ensures ScanSpec(data, atEof)
            == if e < |data| then Scanned(e + 1, Token(data[..e]))
               else if atEof then Scanned(|data|, Token(data))
               else Scanned(0, None)
  {
    FirstEndIs(data, e);
  }

  /** ScanSqlStmt, jumping from one interesting byte to the next. */
  method ScanSqlStmt(data: string, atEof: bool) returns (advance: nat, token: Option<string>)
    ensures advance == ScanSpec(data, atEof).advance
    ensures token == ScanSpec(data, atEof).token
  {
    if atEof && |data| == 0 {
      ScanSpecIs(data, 0, atEof);
      return 0, None;
    }
    var pos := 0;
    var inQuote: Option<char>, inComment, inBlock := None, false, false;
    while pos < |data|
      invariant 0 <= pos <= |data|
      invariant ModeAt(data, pos, inQuote, inComment, inBlock)
      invariant NoEnd(data, 0, pos)
      decreases |data| - pos
    {
      if inComment {
        var i := IndexByte(data, pos, '\n');
        FromComment(data, pos, i);
        pos := i;
        if i == |data| { break; }
        inComment := false;
      } else if inBlock {
        var i := IndexByte(data, pos, '*');
        FromBlock(data, pos, i);
        pos := i;
        if i == |data| { break; }
        if pos + 1 >= |data| {
          pos := pos + 1;
          break;
        } else if data[pos + 1] == '/' {
          pos := pos + 1;
          inBlock := false;
        }
      } else if inQuote.Some? {
        var i := IndexByte(data, pos, inQuote.value);
        FromQuote(data, pos, inQuote.value, i);
        pos := i;
        if i == |data| { break; }
        var n := CountBackslashes(data, pos);
        if n % 2 == 0 {
          inQuote := None;
        }
      } else {
        var i := IndexSpecial(data, pos);
        FromOpen(data, pos, i);
        pos := i;
        if i == |data| { break; }
        match data[pos] {
          case '-' =>
            if pos + 1 < |data| && data[pos + 1] == '-' {
              pos := pos + 1;
              inComment := true;
            }
          case '/' =>
            if pos + 1 < |data| && data[pos + 1] == '*' {
              pos := pos + 1;
              inBlock := true;
            }
          case ';' =>
            ScanSpecIs(data, pos, atEof);
            return pos + 1, Token(data[..pos]);
          case _ =>
            inQuote := Some(data[pos]);
        }
      }
      pos := pos + 1;
    }
    ScanSpecIs(data, |data|, atEof);
    if atEof {
      return |data|, Token(data);
    }
    return 0, None;
  }
}
