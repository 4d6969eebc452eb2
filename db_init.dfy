/** Schema scripts into statements (`init_database`): the plain `;` split used for the main
    and GPS scripts, and, for the extended script, comment removal followed by a scanner that
    keeps dollar-quoted function bodies together.

    Reading the files and running the statements are left out; each splitter takes the file
    text and yields the statement list. */
module SchemaSplit {
  import opened Common

  // ---------------------------------------------------------------------------
  // `[s.strip() for s in sql.split(';') if s.strip()]`

  /** `s.split(';')`: the pieces between separators, always at least one. */
  function Split(s: string): (r: seq<string>)
    ensures |r| >= 1
    decreases |s|
  {
    if s == [] then [[]]
    else
      var n := |s| - 1;
      var p := Split(s[..n]);
      if s[n] == ';' then p + [[]] else p[..|p| - 1] + [p[|p| - 1] + [s[n]]]
  }

  /** No piece holds a separator. */
  predicate NoSeparator(piece: string) {
    forall c :: 0 <= c < |piece| ==> piece[c] != ';'
  }

  lemma {:induction false} SplitNoSeparator(s: string)
    ensures forall k :: 0 <= k < |Split(s)| ==> NoSeparator(Split(s)[k])
    decreases |s|
  {
    if s != [] {
      var n := |s| - 1;
      var p := Split(s[..n]);
      SplitNoSeparator(s[..n]);
      if s[n] != ';' {
        var last := p[|p| - 1] + [s[n]];
        assert NoSeparator(p[|p| - 1]);
        assert NoSeparator(last) by {
          forall c | 0 <= c < |last| ensures last[c] != ';' {
            if c < |last| - 1 {
              assert last[c] == p[|p| - 1][c];
            }
          }
        }
        var r := p[..|p| - 1] + [last];
        forall k | 0 <= k < |r| ensures NoSeparator(r[k]) {
          if k < |r| - 1 {
            assert r[k] == p[k];
          }
        }
      }
    }
  }

  /** `';'.join(pieces)` */
  function Join(pieces: seq<string>): string
    decreases |pieces|
  {
    if pieces == [] then []
    else if |pieces| == 1 then pieces[0]
    else Join(pieces[..|pieces| - 1]) + ";" + pieces[|pieces| - 1]
  }

  lemma JoinAppendEmpty(p: seq<string>)
    requires |p| >= 1
    ensures Join(p + [[]]) == Join(p) + ";"
  {
    var q := p + [[]];
    assert q[..|q| - 1] == p;
  }

  lemma JoinExtendLast(p: seq<string>, c: char)
    requires |p| >= 1
    ensures Join(p[..|p| - 1] + [p[|p| - 1] + [c]]) == Join(p) + [c]
  {
    var q := p[..|p| - 1] + [p[|p| - 1] + [c]];
    if |p| > 1 {
      assert q[..|q| - 1] == p[..|p| - 1];
      assert Join(p) == Join(p[..|p| - 1]) + ";" + p[|p| - 1];
    }
  }

  /** Splitting loses nothing: joining the pieces back gives the text. */
  lemma {:induction false} JoinSplit(s: string)
    ensures Join(Split(s)) == s
    decreases |s|
  {
    if s != [] {
      var n := |s| - 1;
      JoinSplit(s[..n]);
      assert s == s[..n] + [s[n]];
      if s[n] == ';' {
        JoinAppendEmpty(Split(s[..n]));
      } else {
        JoinExtendLast(Split(s[..n]), s[n]);
      }
    }
  }

  /** The non-empty strings of `xs`, in order. */
  function NonEmpty(xs: seq<string>): (r: seq<string>)
    ensures |r| <= |xs|
    decreases |xs|
  {
    if xs == [] then []
    else
      var n := |xs| - 1;
      NonEmpty(xs[..n]) + (if xs[n] != [] then [xs[n]] else [])
  }

  lemma {:induction false} NonEmptyMembers(xs: seq<string>, x: string)
    ensures x in NonEmpty(xs) <==> x in xs && x != []
    decreases |xs|
  {
    if xs != [] {
      var n := |xs| - 1;
      NonEmptyMembers(xs[..n], x);
      assert xs == xs[..n] + [xs[n]];
    }
  }

  /** Every piece stripped. */
  function StripAll(pieces: seq<string>): seq<string> {
    seq(|pieces|, k requires 0 <= k < |pieces| => Strip(pieces[k]))
  }

  lemma StripAllAt(pieces: seq<string>, k: int)
    requires 0 <= k < |pieces|
    ensures |StripAll(pieces)| == |pieces| && StripAll(pieces)[k] == Strip(pieces[k])
  {
  }

  /** The stripped, non-blank pieces, in order. */
  function Kept(pieces: seq<string>): seq<string> {
    NonEmpty(StripAll(pieces))
  }

  /** Every kept statement is stripped and non-empty. */
  lemma KeptClean(pieces: seq<string>)
    ensures forall k :: 0 <= k < |Kept(pieces)| ==> Kept(pieces)[k] != [] && IsStripped(Kept(pieces)[k])
  {
    var r := Kept(pieces);
    forall k | 0 <= k < |r| ensures r[k] != [] && IsStripped(r[k]) {
      NonEmptyMembers(StripAll(pieces), r[k]);
    }
  }

  /** One more piece adds its stripped form when that is not blank. */
  lemma KeptSnoc(pieces: seq<string>, x: string)
    ensures Kept(pieces + [x]) == Kept(pieces) + (if Strip(x) != [] then [Strip(x)] else [])
  {
    var xs := StripAll(pieces + [x]);
    assert xs[..|pieces|] == StripAll(pieces);
    assert xs[|pieces|] == Strip(x);
  }

  /** Piece `k` strips to the statement `st`. */
  predicate KeptAt(pieces: seq<string>, k: int, st: string) {
    0 <= k < |pieces| && Strip(pieces[k]) == st && st != []
  }

  /** Every kept statement is the stripped form of one of the pieces, and every non-blank
      piece gives one. */
  lemma KeptFrom(pieces: seq<string>, st: string)
    ensures st in Kept(pieces) <==> exists k :: KeptAt(pieces, k, st)
  {
    var xs := StripAll(pieces);
    NonEmptyMembers(xs, st);
    if st in Kept(pieces) {
      var k :| 0 <= k < |xs| && xs[k] == st;
      StripAllAt(pieces, k);
      assert KeptAt(pieces, k, st);
    }
    if exists k :: KeptAt(pieces, k, st) {
      var k :| KeptAt(pieces, k, st);
      StripAllAt(pieces, k);
      assert xs[k] == st;
    }
  }

  /** The main and GPS scripts: stripped, non-empty `;`-separated pieces. */
  function SimpleStatements(sql: string): (r: seq<string>)
    ensures forall k :: 0 <= k < |r| ==> r[k] != [] && IsStripped(r[k])
  {
    KeptClean(Split(sql));
    Kept(Split(sql))
  }

  /** No simple statement holds a `;`, and each is a stripped piece of the script. */
  lemma SimpleStatementsPieces(sql: string, st: string)
    requires st in SimpleStatements(sql)
    ensures exists k :: 0 <= k < |Split(sql)| && Strip(Split(sql)[k]) == st
    ensures forall c :: 0 <= c < |st| ==> st[c] != ';'
  {
    KeptFrom(Split(sql), st);
    var k :| KeptAt(Split(sql), k, st);
    SplitNoSeparator(sql);
    StripNoSeparator(Split(sql)[k]);
  }

  /** Stripping a piece without separators leaves none. */
  lemma StripNoSeparator(p: string)
    requires NoSeparator(p)
    ensures NoSeparator(Strip(p))
  {
    SliceNoSeparator(p, |p| - |TrimLeft(p)|, Strip(p));
  }

  lemma SliceNoSeparator(p: string, drop: nat, r: string)
    requires NoSeparator(p) && drop + |r| <= |p| && r == p[drop..drop + |r|]
    ensures NoSeparator(r)
  {
    forall c | 0 <= c < |r| ensures r[c] != ';' {
      assert r[c] == p[drop + c];
    }
  }

  // ---------------------------------------------------------------------------
  // `re.sub(r'--.*$', '', sql, flags=re.MULTILINE)`

  /** The rest of `s` from its first line break on (nothing when there is none). */
  function FromLineBreak(s: string): (r: string)
    ensures |r| <= |s| && r == s[|s| - |r|..]
    ensures r == [] || r[0] == '\n'
    ensures forall i :: 0 <= i < |s| - |r| ==> s[i] != '\n'
    decreases |s|
  {
    if s == [] || s[0] == '\n' then s else FromLineBreak(s[1..])
  }

  /** The number of line breaks in `s`. */
  function Lines(s: string): nat
    decreases |s|
  {
    if s == [] then 0 else (if s[0] == '\n' then 1 else 0) + Lines(s[1..])
  }

  lemma {:induction false} LinesFromLineBreak(s: string)
    ensures Lines(FromLineBreak(s)) == Lines(s)
    decreases |s|
  {
    if s != [] && s[0] != '\n' {
      LinesFromLineBreak(s[1..]);
    }
  }

  /** No two adjacent dashes. */
  predicate NoComment(s: string) {
    forall i :: 0 <= i < |s| - 1 ==> !(s[i] == '-' && s[i + 1] == '-')
  }

  /** Every `--` and the rest of its line is removed; the line break itself stays. */
  function StripComments(s: string): (r: string)
    ensures |r| <= |s|
    ensures NoComment(r)
    ensures r != [] ==> r[0] == s[0] || r[0] == '\n'
    ensures r != [] && r[0] == '-' ==> s[0] == '-' && (|s| == 1 || s[1] != '-')
    decreases |s|
  {
    if s == [] then []
    else if |s| >= 2 && s[0] == '-' && s[1] == '-' then StripComments(FromLineBreak(s))
    else
      var rest := StripComments(s[1..]);
      var r := [s[0]] + rest;
      assert forall i :: 1 <= i < |r| - 1 ==> r[i] == rest[i - 1] && r[i + 1] == rest[i];
      r
  }

  /** Comment removal keeps every line, and changes nothing in text without comments. */
  lemma {:induction false} StripCommentsLines(s: string)
    ensures Lines(StripComments(s)) == Lines(s)
    ensures NoComment(s) ==> StripComments(s) == s
    decreases |s|
  {
    if s == [] {
    } else if |s| >= 2 && s[0] == '-' && s[1] == '-' {
      StripCommentsLines(FromLineBreak(s));
      LinesFromLineBreak(s);
    } else {
      StripCommentsLines(s[1..]);
      assert Lines(s) == (if s[0] == '\n' then 1 else 0) + Lines(s[1..]);
      var r := StripComments(s);
      assert r == [s[0]] + StripComments(s[1..]);
      assert r[1..] == StripComments(s[1..]);
      if NoComment(s) {
        assert NoComment(s[1..]) by {
          forall i | 0 <= i < |s[1..]| - 1 ensures !(s[1..][i] == '-' && s[1..][i + 1] == '-') {
            assert s[1..][i] == s[i + 1] && s[1..][i + 1] == s[i + 2];
          }
        }
      }
    }
  }

  // ---------------------------------------------------------------------------
  // The dollar-quote-aware scanner

  /** The scanner's variables: emitted statements, the raw pieces they came from (each up to
      and including its `;`), the statement being built, and the quote state. */
  datatype Scan = Scan(statements: seq<string>, pieces: seq<string>, current: string, inQuote: bool, tag: Option<string>)

  const Start: Scan := Scan([], [], [], false, None)

  /** The end of the run of tag characters starting at `k`. */
  function TagEnd(s: string, k: nat): (e: nat)
    requires k <= |s|
    ensures k <= e <= |s|
    ensures forall m :: k <= m < e ==> IsTagChar(s[m])
    ensures e == |s| || !IsTagChar(s[e])
    decreases |s| - k
  {
    if k == |s| || !IsTagChar(s[k]) then k else TagEnd(s, k + 1)
  }

  /** `$tag$` starts at `i`: a dollar, one or more tag characters and a dollar. */
  predicate TaggedAt(s: string, i: nat) {
    i + 1 < |s| && s[i] == '$' && IsTagChar(s[i + 1]) && TagEnd(s, i + 1) < |s| && s[TagEnd(s, i + 1)] == '$'
  }

  /** `$$` starts at `i`. */
  predicate PlainAt(s: string, i: nat) {
    i + 1 < |s| && s[i] == '$' && s[i + 1] == '$'
  }

  /** Append one ordinary character; an unquoted `;` ends the statement, which is kept when
      it is not blank. */
  function Plain(st: Scan, c: char): Scan {
    var cur := st.current + [c];
    if c == ';' && !st.inQuote then
      Scan(st.statements + (if Strip(cur) != [] then [Strip(cur)] else []), st.pieces + [cur], [], st.inQuote, st.tag)
    else st.(current := cur)
  }

  /** One step of the scanner at position `i`: where it goes next and its new variables. */
  function Next(s: string, i: nat, st: Scan): (r: (nat, Scan))
    requires i < |s|
    ensures i < r.0 <= |s|
  {
    if PlainAt(s, i) then
      var opens := !(st.inQuote && st.tag.None?);
      (i + 2, st.(current := st.current + "$$", inQuote := opens, tag := None))
    else if TaggedAt(s, i) then
      var e := TagEnd(s, i + 1);
      var t := s[i + 1..e];
      var closes := st.inQuote && st.tag == Some(t);
      (e + 1, st.(current := st.current + s[i..e + 1], inQuote := !closes, tag := if closes then None else Some(t)))
    else (i + 1, Plain(st, s[i]))
  }

  /** Scanning from position `i` to the end. */
  function RunFrom(s: string, i: nat, st: Scan): Scan
    requires i <= |s|
    decreases |s| - i
  {
    if i == |s| then st else var (j, st') := Next(s, i, st); RunFrom(s, j, st')
  }

  /** After the scan: a non-blank remainder is the last statement. */
  function Finish(st: Scan): Scan {
    st.(statements := st.statements + (if Strip(st.current) != [] then [Strip(st.current)] else []))
  }

  /** The extended script's statements. */
  function DollarStatements(sql: string): seq<string> {
    Finish(RunFrom(sql, 0, Start)).statements
  }

  /** `$$` closes a quote only when that quote is untagged; anywhere else, inside a tagged
      quote too, it opens an untagged one. */
  lemma DoubleDollarRule(s: string, i: nat, st: Scan)
    requires PlainAt(s, i)
    ensures var (j, st') := Next(s, i, st);
      j == i + 2 && st'.current == st.current + "$$" && st'.tag.None?
      && (st'.inQuote <==> !(st.inQuote && st.tag.None?))
      && st'.statements == st.statements && st'.pieces == st.pieces
  {
  }

  /** `$tag$` closes only a quote with that same tag, and otherwise opens one with it. */
  lemma TaggedRule(s: string, i: nat, st: Scan)
    requires TaggedAt(s, i)
    ensures var e := TagEnd(s, i + 1); var t := s[i + 1..e]; var (j, st') := Next(s, i, st);
      j == e + 1 && st'.current == st.current + s[i..e + 1]
      && (st.inQuote && st.tag == Some(t) ==> !st'.inQuote && st'.tag.None?)
      && (!(st.inQuote && st.tag == Some(t)) ==> st'.inQuote && st'.tag == Some(t))
      && st'.statements == st.statements && st'.pieces == st.pieces
  {
  }

  /** A `$` that is last, or followed by neither `$` nor a tag character, or that starts an
      unterminated tag, is an ordinary character and leaves the quote state alone. */
  lemma LoneDollarRule(s: string, i: nat, st: Scan)
    requires i < |s| && s[i] == '$' && !PlainAt(s, i) && !TaggedAt(s, i)
    ensures var (j, st') := Next(s, i, st);
      j == i + 1 && st'.current == st.current + "$" && st'.inQuote == st.inQuote && st'.tag == st.tag
  {
  }

  /** An unquoted `;` ends the statement, `;` included; inside a quote it is kept in the statement. */
  lemma SemicolonRule(s: string, i: nat, st: Scan)
    requires i < |s| && s[i] == ';'
    ensures var (j, st') := Next(s, i, st);
      j == i + 1
      && (!st.inQuote ==> st'.pieces == st.pieces + [st.current + ";"] && st'.current == []
                          && st'.statements == st.statements + (if Strip(st.current + ";") != [] then [Strip(st.current + ";")] else []))
      && (st.inQuote ==> st'.pieces == st.pieces && st'.current == st.current + ";" && st'.statements == st.statements)
  {
    assert !PlainAt(s, i) && !TaggedAt(s, i);
  }

  /** All pieces joined end to end. */
  function Concat(pieces: seq<string>): string
    decreases |pieces|
  {
    if pieces == [] then [] else Concat(pieces[..|pieces| - 1]) + pieces[|pieces| - 1]
  }

  /** The scanner's bookkeeping: the consumed text is the pieces and the current statement,
      and the statements are the kept pieces. */
  predicate Consistent(s: string, i: nat, st: Scan) {
    i <= |s| && Concat(st.pieces) + st.current == s[..i] && st.statements == Kept(st.pieces)
  }

  /** Text appended to the current statement keeps the bookkeeping. */
  lemma ExtendConsistent(s: string, i: nat, j: nat, st: Scan, st': Scan)
    requires Consistent(s, i, st) && i <= j <= |s|
    requires st'.pieces == st.pieces && st'.statements == st.statements && st'.current == st.current + s[i..j]
    ensures Consistent(s, j, st')
  {
    AppendSlice(s, i, j, Concat(st.pieces), st.current);
  }

  lemma AppendSlice(s: string, i: nat, j: nat, a: string, b: string)
    requires i <= j <= |s| && a + b == s[..i]
    ensures a + (b + s[i..j]) == s[..j]
  {
    assert s[..j] == s[..i] + s[i..j];
  }

  lemma ConcatSnoc(ps: seq<string>, x: string)
    ensures Concat(ps + [x]) == Concat(ps) + x
  {
    assert (ps + [x])[..|ps|] == ps;
  }

  /** Closing a piece at position `i` accounts for the text up to and including it. */
  lemma ConcatClose(s: string, i: nat, pieces: seq<string>, current: string)
    requires i < |s| && Concat(pieces) + current == s[..i]
    ensures Concat(pieces + [current + [s[i]]]) == s[..i + 1]
  {
    assert s[..i + 1] == s[..i] + [s[i]];
    ConcatSnoc(pieces, current + [s[i]]);
  }

  /** An unquoted `;` closes the piece and keeps the bookkeeping. */
  lemma CloseConsistent(s: string, i: nat, st: Scan)
    requires i < |s| && s[i] == ';' && !st.inQuote && Consistent(s, i, st)
    ensures Consistent(s, i + 1, Plain(st, s[i]))
  {
    PlainCloses(st, s[i]);
    ClosedConsistent(s, i, st, Plain(st, s[i]));
  }

  /** A scan state that records the current piece, `s[i]` included, keeps the bookkeeping. */
  lemma ClosedConsistent(s: string, i: nat, st: Scan, st': Scan)
    requires i < |s| && Consistent(s, i, st)
    requires st'.pieces == st.pieces + [st.current + [s[i]]] && st'.current == []
    requires st'.statements == st.statements + (if Strip(st.current + [s[i]]) != [] then [Strip(st.current + [s[i]])] else [])
    ensures Consistent(s, i + 1, st')
  {
    assert Concat(st'.pieces) + st'.current == s[..i + 1] by {
      ConcatClose(s, i, st.pieces, st.current);
    }
    assert st'.statements == Kept(st'.pieces) by {
      KeptSnoc(st.pieces, st.current + [s[i]]);
    }
  }

  /** An unquoted `;` ends the current statement: the piece is recorded, and its stripped
      form too when not blank. */
  lemma PlainCloses(st: Scan, c: char)
    requires c == ';' && !st.inQuote
    ensures var cur := st.current + [c];
      Plain(st, c) == Scan(st.statements + (if Strip(cur) != [] then [Strip(cur)] else []), st.pieces + [cur], [], st.inQuote, st.tag)
  {
  }

  lemma PlainConsistent(s: string, i: nat, st: Scan)
    requires i < |s| && Consistent(s, i, st)
    ensures Consistent(s, i + 1, Plain(st, s[i]))
  {
    if s[i] == ';' && !st.inQuote {
      CloseConsistent(s, i, st);
    } else {
      PlainExtends(st, s[i]);
      AppendChar(s, i, Concat(st.pieces), st.current);
    }
  }

  lemma AppendChar(s: string, i: nat, a: string, b: string)
    requires i < |s| && a + b == s[..i]
    ensures a + (b + [s[i]]) == s[..i + 1]
  {
    assert s[..i + 1] == s[..i] + [s[i]];
  }

  /** A character other than an unquoted `;` only extends the current statement. */
  lemma PlainExtends(st: Scan, c: char)
    requires !(c == ';' && !st.inQuote)
    ensures Plain(st, c) == st.(current := st.current + [c])
  {
  }

  /** A step either appends the text it consumed to the current statement or is a `Plain` step. */
  lemma NextShape(s: string, i: nat, st: Scan)
    requires i < |s|
    ensures var (j, st') := Next(s, i, st);
      (st'.pieces == st.pieces && st'.statements == st.statements && st'.current == st.current + s[i..j])
      || (j == i + 1 && st' == Plain(st, s[i]))
  {
    if PlainAt(s, i) {
      assert s[i..i + 2] == "$$";
    }
  }

  lemma NextConsistent(s: string, i: nat, st: Scan)
    requires i < |s| && Consistent(s, i, st)
    ensures Consistent(s, Next(s, i, st).0, Next(s, i, st).1)
  {
    var r := Next(s, i, st);
    NextShape(s, i, st);
    if r.1.pieces == st.pieces && r.1.statements == st.statements && r.1.current == st.current + s[i..r.0] {
      ExtendConsistent(s, i, r.0, st, r.1);
    } else {
      PlainConsistent(s, i, st);
    }
  }

  lemma {:induction false} RunFromConsistent(s: string, i: nat, st: Scan)
    requires Consistent(s, i, st)
    ensures Consistent(s, |s|, RunFrom(s, i, st))
    decreases |s| - i
  {
    if i < |s| {
      NextConsistent(s, i, st);
      var (j, st') := Next(s, i, st);
      RunFromConsistent(s, j, st');
    }
  }

  /** No character is lost: the pieces and the remainder make up the whole text, every piece
      ends with its `;`, and the statements are the stripped non-blank pieces and remainder. */
  lemma DollarSplitLossless(s: string)
    ensures var r := RunFrom(s, 0, Start);
      Concat(r.pieces) + r.current == s
      && DollarStatements(s) == Kept(r.pieces + [r.current])
  {
    assert Consistent(s, 0, Start);
    RunFromConsistent(s, 0, Start);
    var r := RunFrom(s, 0, Start);
    assert s[..|s|] == s;
    KeptSnoc(r.pieces, r.current);
  }

  /** Every statement of the extended script is stripped and non-empty. */
  lemma DollarStatementsClean(s: string)
    ensures forall k :: 0 <= k < |DollarStatements(s)| ==> DollarStatements(s)[k] != [] && IsStripped(DollarStatements(s)[k])
  {
    DollarSplitLossless(s);
    var r := RunFrom(s, 0, Start);
    KeptClean(r.pieces + [r.current]);
  }

  /** The scanner as written: the same loop, with the tag read by an inner loop. */
  method SplitDollarQuoted(sql: string) returns (statements: seq<string>)
    ensures statements == DollarStatements(sql)
  {
    var current: string := [];
    var inQuote := false;
    var tag: Option<string> := None;
    ghost var pieces: seq<string> := [];
    statements := [];
    var i := 0;
    while i < |sql|
      invariant 0 <= i <= |sql|
      invariant RunFrom(sql, i, Scan(statements, pieces, current, inQuote, tag)) == RunFrom(sql, 0, Start)
      decreases |sql| - i
    {
      ghost var before := Scan(statements, pieces, current, inQuote, tag);
      ghost var at := i;
      i, statements, pieces, current, inQuote, tag := ScanStep(sql, i, statements, pieces, current, inQuote, tag);
      assert RunFrom(sql, at, before) == RunFrom(sql, i, Scan(statements, pieces, current, inQuote, tag));
    }
    if Strip(current) != [] {
      statements := statements + [Strip(current)];
    }
  }

  /** One pass of the scanner loop body at position `i`: a `$$` or `$tag$` is copied into the
      statement and toggles the quote, any other character goes through `Plain`. */
  method ScanStep(sql: string, i: nat, statements: seq<string>, ghost pieces: seq<string>, current: string,
                  inQuote: bool, tag: Option<string>)
      returns (i': nat, statements': seq<string>, ghost pieces': seq<string>, current': string,
               inQuote': bool, tag': Option<string>)
    requires i < |sql|
    ensures (i', Scan(statements', pieces', current', inQuote', tag')) == Next(sql, i, Scan(statements, pieces, current, inQuote, tag))
  {
    ghost var before := Scan(statements, pieces, current, inQuote, tag);
    statements', pieces', current', inQuote', tag' := statements, pieces, current, inQuote, tag;
    var c := sql[i];
    if c == '$' && i + 1 < |sql| {
      var d := sql[i + 1];
      if d == '$' {
        if inQuote && tag.None? {
          inQuote' := false;
          tag' := None;
        } else {
          inQuote' := true;
          tag' := None;
        }
        current' := current + [c, d];
        i' := i + 2;
        assert Next(sql, i, before) == (i', Scan(statements', pieces', current', inQuote', tag'));
        return;
      } else if IsTagChar(d) {
        var tagStart := i + 1;
        var tagEnd := tagStart;
        while tagEnd < |sql| && IsTagChar(sql[tagEnd])
          invariant tagStart <= tagEnd <= |sql|
          invariant TagEnd(sql, tagStart) == TagEnd(sql, tagEnd)
        {
          tagEnd := tagEnd + 1;
        }
        if tagEnd < |sql| && sql[tagEnd] == '$' {
          var t := sql[tagStart..tagEnd];
          if inQuote && tag == Some(t) {
            inQuote' := false;
            tag' := None;
          } else {
            inQuote' := true;
            tag' := Some(t);
          }
          current' := current + sql[i..tagEnd + 1];
          i' := tagEnd + 1;
          assert Next(sql, i, before) == (i', Scan(statements', pieces', current', inQuote', tag'));
          return;
        }
      }
    }
    assert !PlainAt(sql, i) && !TaggedAt(sql, i);
    assert Next(sql, i, before) == (i + 1, Plain(before, c));
    current' := current + [c];
    if c == ';' && !inQuote {
      PlainCloses(before, c);
      var statement := Strip(current');
      if statement != [] {
        statements' := statements + [statement];
      }
      pieces' := pieces + [current'];
      current' := [];
    } else {
      PlainExtends(before, c);
    }
    i' := i + 1;
    assert Plain(before, c) == Scan(statements', pieces', current', inQuote', tag');
  }

  /** The dollar-aware statements are the kept pieces of one cut of the text. */
  lemma DollarStatementsCut(s: string)
    ensures exists pieces :: Concat(pieces) == s && DollarStatements(s) == Kept(pieces)
  {
    DollarSplitLossless(s);
    var r := RunFrom(s, 0, Start);
    ConcatSnoc(r.pieces, r.current);
    assert Concat(r.pieces + [r.current]) == s && DollarStatements(s) == Kept(r.pieces + [r.current]);
  }

  /** The extended script after comment removal: its statements are stripped and non-empty,
      and they are the kept pieces of a cut of the comment-free text. */
  function ExtendedStatements(sql: string): (r: seq<string>)
    ensures forall k :: 0 <= k < |r| ==> r[k] != [] && IsStripped(r[k])
    ensures exists pieces :: Concat(pieces) == StripComments(sql) && r == Kept(pieces)
  {
    var t := StripComments(sql);
    DollarStatementsClean(t);
    DollarStatementsCut(t);
    DollarStatements(t)
  }
}
