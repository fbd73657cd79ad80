/**
 What the header parser does with lines that are not whole, not known or not answered: the text
 may still be arriving, and the limit is the number of bytes there are so far.
 */
module HeaderLimits {
  import opened Decimal
  import opened Matcher
  import opened MatcherTheorems
  import opened KeywordMatcher
  import opened TextHeader

  // ---- more text ----

  /** The bytes below limit are the same in both, and the second may have more of them. */
  ghost predicate Longer(buf: string, limit: nat, buf': string, limit': nat) {
    limit <= |buf| && limit <= limit' <= |buf'| && buf[..limit] == buf'[..limit]
  }

  lemma SameByte(buf: string, limit: nat, buf': string, limit': nat, i: nat)
    requires Longer(buf, limit, buf', limit') && i < limit
    ensures buf[i] == buf'[i]
  {
    assert buf[..limit][i] == buf'[..limit][i];
  }

  lemma SameText(buf: string, limit: nat, buf': string, limit': nat, i: nat, j: nat)
    requires Longer(buf, limit, buf', limit') && i <= j <= limit
    ensures buf[i..j] == buf'[i..j]
  {
    assert buf[..limit][i..j] == buf[i..j] && buf'[..limit][i..j] == buf'[i..j];
  }

  lemma {:induction false} ScanStays(buf: string, limit: nat, buf': string, limit': nat, p: nat, cr: bool)
    requires Longer(buf, limit, buf', limit') && p <= limit && Scan(buf, p, limit, cr) < limit
    ensures Scan(buf', p, limit', cr) == Scan(buf, p, limit, cr)
    decreases limit - p
  {
    SameByte(buf, limit, buf', limit', p);
    if Scan(buf, p, limit, cr) != p { ScanStays(buf, limit, buf', limit', p + 1, cr); }
  }

  lemma {:induction false} MoreKeysStay(buf: string, limit: nat, buf': string, limit': nat, p: nat)
    requires Longer(buf, limit, buf', limit') && p < limit && MoreKeys(buf, p, limit).0
    ensures MoreKeys(buf', p, limit') == MoreKeys(buf, p, limit)
    decreases limit - p
  {
    SameByte(buf, limit, buf', limit', p);
    if buf[p] == ' ' {
      ScanStays(buf, limit, buf', limit', p + 1, true);
      MoreKeysStay(buf, limit, buf', limit', Scan(buf, p + 1, limit, true));
    }
  }

  lemma FetchStays(buf: string, limit: nat, buf': string, limit': nat, kind: int, p: nat)
    requires Longer(buf, limit, buf', limit') && p < limit && ParseFetch(buf, kind, p, limit).Fetched?
    ensures ParseFetch(buf', kind, p, limit') == ParseFetch(buf, kind, p, limit)
  {
    ScanStays(buf, limit, buf', limit', p + 1, true);
    MoreKeysStay(buf, limit, buf', limit', Scan(buf, p + 1, limit, true));
  }

  lemma SizesStay(buf: string, limit: nat, buf': string, limit': nat, kind: int, key: Span, flags: string,
                  exp: string, c: nat)
    requires Longer(buf, limit, buf', limit') && c < limit
    requires SizeFields(buf, kind, key, flags, exp, c, limit).Fields?
    ensures SizeFields(buf', kind, key, flags, exp, c, limit') == SizeFields(buf, kind, key, flags, exp, c, limit)
  {
    ScanStays(buf, limit, buf', limit', c + 1, true);
    var d := Scan(buf, c + 1, limit, true);
    SameText(buf, limit, buf', limit', c + 1, d);
    if kind == CAS {
      ScanStays(buf, limit, buf', limit', d + 1, true);
      SameText(buf, limit, buf', limit', d + 1, Scan(buf, d + 1, limit, true));
    }
  }

  lemma ExpiryStays(buf: string, limit: nat, buf': string, limit': nat, kind: int, key: Span, flags: string, b: nat)
    requires Longer(buf, limit, buf', limit') && b < limit && ExpiryFields(buf, kind, key, flags, b, limit).Fields?
    ensures ExpiryFields(buf', kind, key, flags, b, limit') == ExpiryFields(buf, kind, key, flags, b, limit)
  {
    ScanStays(buf, limit, buf', limit', b + 1, false);
    var c := Scan(buf, b + 1, limit, false);
    SameText(buf, limit, buf', limit', b + 1, c);
    SizesStay(buf, limit, buf', limit', kind, key, flags, buf[b + 1..c], c);
  }

  lemma TimesStay(buf: string, limit: nat, buf': string, limit': nat, kind: int, key: Span, a: nat)
    requires Longer(buf, limit, buf', limit') && a < limit && TimeFields(buf, kind, key, a, limit).Fields?
    ensures TimeFields(buf', kind, key, a, limit') == TimeFields(buf, kind, key, a, limit)
  {
    ScanStays(buf, limit, buf', limit', a + 1, false);
    var b := Scan(buf, a + 1, limit, false);
    SameText(buf, limit, buf', limit', a + 1, b);
    ExpiryStays(buf, limit, buf', limit', kind, key, buf[a + 1..b], b);
  }

  lemma StoreStays(buf: string, limit: nat, buf': string, limit': nat, kind: int, p: nat)
    requires Longer(buf, limit, buf', limit') && p < limit && ParseStore(buf, kind, p, limit).Stored?
    ensures ParseStore(buf', kind, p, limit') == ParseStore(buf, kind, p, limit)
  {
    ScanStays(buf, limit, buf', limit', p + 1, false);
    var a := Scan(buf, p + 1, limit, false);
    TimesStay(buf, limit, buf', limit', kind, SpanOf(p + 1, a), a);
    SameByte(buf, limit, buf', limit', StoreFields(buf, kind, p, limit).at);
  }

  /** Whatever the parser makes of the bytes it has, unless it fails on them, it makes of them with
      more bytes behind them too: an accepted header never changes while data arrive. */
  lemma VerdictStays(cmds: seq<string>, buf: string, limit: nat, buf': string, limit': nat)
    requires Usable(cmds) && Longer(buf, limit, buf', limit') && !Parse(cmds, buf, limit).Failed?
    ensures Parse(cmds, buf', limit') == Parse(cmds, buf, limit)
  {
    ScanStays(buf, limit, buf', limit', 0, true);
    var p := Scan(buf, 0, limit, true);
    SameText(buf, limit, buf', limit', 0, p);
    assert buf[..p] == buf[0..p] && buf'[..p] == buf'[0..p];
    match Match(cmds, buf[..p])
    case Answered(Hit(kind)) =>
      if Storing(kind) {
        StoreStays(buf, limit, buf', limit', kind, p);
      } else if Fetching(kind) {
        FetchStays(buf, limit, buf', limit', kind, p);
      }
    case _ =>
  }

  // ---- the end of a header ----

  predicate Accepted(r: Parsed) { r.Stored? || r.Fetched? || r.Asked? }

  /** The character that closes the header: the carriage return two before the end, for a storage
      line with noreply the space nine before it, and for stats whatever closes the command. */
  ghost predicate Closes(buf: string, limit: nat, r: Parsed)
    requires Accepted(r) && limit <= |buf|
  {
    var back := if r.Stored? && r.noReply then 9 else 2;
    && back <= r.end && r.end - back < limit
    && buf[r.end - back] in (if r.Asked? then {' ', '\r'} else {Ending(r.Stored? && r.noReply)})
  }

  lemma ScanAt(buf: string, p: nat, limit: nat, cr: bool)
    requires p <= limit <= |buf|
    ensures var q := Scan(buf, p, limit, cr); q < limit ==> buf[q] == ' ' || (cr && buf[q] == '\r')
    decreases limit - p
  {}

  lemma {:induction false} MoreKeysEnd(buf: string, p: nat, limit: nat)
    requires p < limit <= |buf| && (buf[p] == ' ' || buf[p] == '\r')
    ensures var r := MoreKeys(buf, p, limit); r.0 ==> r.2 < limit && buf[r.2] == '\r'
    decreases limit - p
  {
    if buf[p] == ' ' {
      var q := Scan(buf, p + 1, limit, true);
      ScanAt(buf, p + 1, limit, true);
      if q < limit { MoreKeysEnd(buf, q, limit); }
    }
  }

  lemma SizesEnd(buf: string, kind: int, key: Span, flags: string, exp: string, c: nat, limit: nat)
    requires c < limit <= |buf|
    ensures var r := SizeFields(buf, kind, key, flags, exp, c, limit); r.Fields? ==>
              buf[r.at] == ' ' || buf[r.at] == '\r'
  {
    ScanAt(buf, c + 1, limit, true);
    var d := Scan(buf, c + 1, limit, true);
    if d < limit { ScanAt(buf, d + 1, limit, true); }
  }

  lemma ExpiryEnd(buf: string, kind: int, key: Span, flags: string, b: nat, limit: nat)
    requires b < limit <= |buf|
    ensures var r := ExpiryFields(buf, kind, key, flags, b, limit); r.Fields? ==> buf[r.at] == ' ' || buf[r.at] == '\r'
  {
    var c := Scan(buf, b + 1, limit, false);
    if c < limit { SizesEnd(buf, kind, key, flags, buf[b + 1..c], c, limit); }
  }

  lemma TimesEnd(buf: string, kind: int, key: Span, a: nat, limit: nat)
    requires a < limit <= |buf|
    ensures var r := TimeFields(buf, kind, key, a, limit); r.Fields? ==> buf[r.at] == ' ' || buf[r.at] == '\r'
  {
    var b := Scan(buf, a + 1, limit, false);
    if b < limit { ExpiryEnd(buf, kind, key, buf[a + 1..b], b, limit); }
  }

  lemma StoreEnd(buf: string, kind: int, p: nat, limit: nat)
    requires p < limit <= |buf|
    ensures var r := StoreFields(buf, kind, p, limit); r.Fields? ==> buf[r.at] == ' ' || buf[r.at] == '\r'
  {
    var a := Scan(buf, p + 1, limit, false);
    if a < limit { TimesEnd(buf, kind, SpanOf(p + 1, a), a, limit); }
  }

  lemma StoreCloses(buf: string, kind: int, p: nat, limit: nat)
    requires p < limit <= |buf| && ParseStore(buf, kind, p, limit).Stored?
    ensures Closes(buf, limit, ParseStore(buf, kind, p, limit))
  {
    StoreEnd(buf, kind, p, limit);
  }

  lemma FetchCloses(buf: string, kind: int, p: nat, limit: nat)
    requires p < limit <= |buf| && ParseFetch(buf, kind, p, limit).Fetched?
    ensures Closes(buf, limit, ParseFetch(buf, kind, p, limit))
  {
    ScanAt(buf, p + 1, limit, true);
    MoreKeysEnd(buf, Scan(buf, p + 1, limit, true), limit);
  }

  /** An accepted header is closed by a character below the limit. */
  lemma AcceptedCloses(cmds: seq<string>, buf: string, limit: nat)
    requires limit <= |buf| && Usable(cmds) && Accepted(Parse(cmds, buf, limit))
    ensures Closes(buf, limit, Parse(cmds, buf, limit))
  {
    var p := Scan(buf, 0, limit, true);
    ScanAt(buf, 0, limit, true);
    var kind := Match(cmds, buf[..p]).a.idx;
    if Storing(kind) {
      StoreCloses(buf, kind, p, limit);
    } else if Fetching(kind) {
      FetchCloses(buf, kind, p, limit);
    }
  }

  /** A printed line of which not even the carriage return has arrived is never accepted, and never
      aborts: the parser asks for more. */
  lemma PrefixFails(h: Header, cmds: seq<string>, buf: string, limit: nat)
    requires WellFormed(h) && Recognised(cmds, h.kind) && limit <= |buf|
    requires limit <= |Print(h, cmds)| - 2 && buf[..limit] == Print(h, cmds)[..limit]
    ensures Parse(cmds, buf, limit) == Failed
  {
    var line := Print(h, cmds);
    if !Parse(cmds, buf, limit).Failed? {
      VerdictStays(cmds, buf, limit, line, |line|);
      assert line[..|line|] == line;
      if h.Store? { StoreRoundTrip(h, cmds, line, |line|); } else { FetchRoundTrip(h, cmds, line, |line|); }
      AcceptedCloses(cmds, buf, limit);
    }
  }

  // ---- the first token ----

  /** Every keyword of the token's length differs from it at a position tested on the way to it. */
  ghost predicate Unlike(cmds: seq<string>, token: string) {
    ShallowClass(cmds, |token|) &&
    forall j {:trigger cmds[j]} :: 0 <= j < |cmds| && |cmds[j]| == |token| ==>
      !Agrees(ClassOf(cmds, |token|), |token|, Entry(j, cmds[j]), token)
  }

  /** A first token that no keyword accepts fails, whatever follows: one the matcher has no answer
      for, one of a length no keyword has, and one unlike every keyword of its length. */
  lemma UnknownFails(cmds: seq<string>, buf: string, limit: nat)
    requires limit <= |buf| && Usable(cmds)
    requires Scan(buf, 0, limit, true) < limit && Scan(buf, 0, limit, true) < 256
    requires var token := buf[..Scan(buf, 0, limit, true)];
             || Match(cmds, token) == Answered(Miss)
             || (forall j {:trigger cmds[j]} :: 0 <= j < |cmds| ==> |cmds[j]| != |token|)
             || Unlike(cmds, token)
    ensures Parse(cmds, buf, limit) == Failed
  {
    var token := buf[..Scan(buf, 0, limit, true)];
    if Match(cmds, token).a.Hit? {
      HitsKeyword(cmds, token);
      if Unlike(cmds, token) { AcceptedAgrees(cmds, token); }
    }
  }

  /** The buffer begins with a command and the character that ends it. */
  ghost predicate Command(cmds: seq<string>, kind: int, buf: string, limit: nat) {
    && Recognised(cmds, kind) && |cmds[kind]| < limit <= |buf| && buf[..|cmds[kind]|] == cmds[kind]
    && buf[|cmds[kind]|] in {' ', '\r'}
  }

  lemma CommandMatched(cmds: seq<string>, kind: int, buf: string, limit: nat)
    requires Command(cmds, kind, buf, limit)
    ensures Scan(buf, 0, limit, true) == |cmds[kind]| && Match(cmds, buf[..|cmds[kind]|]) == Answered(Hit(kind))
  {
    var w := cmds[kind];
    forall i | 0 <= i < |w| ensures buf[i] != ' ' && buf[i] != '\r' { assert buf[..|w|][i] == w[i]; }
    ScanStops(buf, 0, |w|, limit, true);
  }

  /** stats ends two bytes behind the command, so just after the line if that is all it says. */
  lemma StatsAsked(cmds: seq<string>, buf: string, limit: nat)
    requires Command(cmds, STATS, buf, limit)
    ensures Parse(cmds, buf, limit) == Asked(|cmds[STATS]| + 2)
    ensures buf[..limit] == Line([cmds[STATS]]) ==> Parse(cmds, buf, limit).end == limit
  {
    CommandMatched(cmds, STATS, buf, limit);
  }

  /** Commands with a parser of their own. */
  predicate Served(kind: int) { Storing(kind) || Fetching(kind) || kind == STATS }

  /** The other commands abort, and nothing else does. */
  lemma AbortsIff(cmds: seq<string>, buf: string, limit: nat)
    requires limit <= |buf| && Usable(cmds)
    ensures var p := Scan(buf, 0, limit, true);
            Parse(cmds, buf, limit).Aborted? <==>
              p < limit && p < 256 && Match(cmds, buf[..p]).a.Hit? && !Served(Match(cmds, buf[..p]).a.idx)
  {}

  /** For the server these are delete, incr, deccr, touch, watch, lru_crawler and slabs. */
  lemma ServerAborts(kind: int, buf: string, limit: nat)
    requires Command(COMMANDS, kind, buf, limit)
    ensures Parse(COMMANDS, buf, limit).Aborted? <==>
              COMMANDS[kind] in {"delete", "incr", "deccr", "touch", "watch", "lru_crawler", "slabs"}
  {
    CommandMatched(COMMANDS, kind, buf, limit);
    AbortsIff(COMMANDS, buf, limit);
    ServedNames(kind);
  }

  lemma ServedNames(kind: int)
    requires 0 <= kind < |COMMANDS|
    ensures Served(kind) <==>
              COMMANDS[kind] !in {"delete", "incr", "deccr", "touch", "watch", "lru_crawler", "slabs"}
  {
    assert COMMANDS[3] == "delete" && COMMANDS[9] == "incr" && COMMANDS[10] == "deccr" && COMMANDS[11] == "touch";
    assert COMMANDS[12] == "watch" && COMMANDS[13] == "lru_crawler" && COMMANDS[15] == "slabs";
  }

  // ---- noreply ----

  /** A storage line that asks for no reply. */
  function PrintQuiet(h: Header, cmds: seq<string>): string
    requires 0 <= h.kind < |cmds|
  {
    Line(Words(h, cmds) + ["noreply"])
  }

  /** All fields of a storage line with noreply come back and the request is marked, but the end
      given is one byte short of the line: it is the line feed, which is then taken for data. */
  lemma NoReplyBack(h: Header, cmds: seq<string>, buf: string, limit: nat)
    requires WellFormed(h) && h.Store? && Recognised(cmds, h.kind)
    requires |PrintQuiet(h, cmds)| <= limit <= |buf| && buf[..|PrintQuiet(h, cmds)|] == PrintQuiet(h, cmds)
    ensures var r, line := Parse(cmds, buf, limit), PrintQuiet(h, cmds);
            && r.Stored? && r == Stored(h.kind, r.key, h.flags, h.expTime, h.bytes, h.ticket, true, |line| - 1)
            && KeyAt(buf, r.key, h.key) && buf[r.end] == '\n'
  {
    QuietComing(h, cmds, buf, limit);
    QuietRest(h, cmds);
    QuietLine(h, cmds, buf, limit, Words(h, cmds) + ["noreply"], |PrintQuiet(h, cmds)|);
  }

  lemma QuietRest(h: Header, cmds: seq<string>)
    requires h.Store? && 0 <= h.kind < |cmds|
    ensures (Words(h, cmds) + ["noreply"])[1..] == [h.key] + Numbers(h) + ["noreply"]
    ensures (Words(h, cmds) + ["noreply"])[0] == cmds[h.kind]
  {}

  lemma QuietLine(h: Header, cmds: seq<string>, buf: string, limit: nat, ws: seq<string>, len: nat)
    requires WellFormed(h) && h.Store? && Recognised(cmds, h.kind) && limit <= |buf|
    requires |ws| > 1 && ws[0] == cmds[h.kind] && ws[1..] == [h.key] + Numbers(h) + ["noreply"]
    requires Coming(buf, 0, limit, ws) && len == |Line(ws)|
    ensures var r := Parse(cmds, buf, limit);
            && r.Stored? && r == Stored(h.kind, r.key, h.flags, h.expTime, h.bytes, h.ticket, true, len - 1)
            && KeyAt(buf, r.key, h.key)
  {
    var p, v := CommandBack(cmds, buf, limit, h.kind, ws);
    QuietFields(h, buf, p, limit, v, len - 1);
    ParseGoes(cmds, buf, limit, h.kind, p);
  }

  lemma QuietComing(h: Header, cmds: seq<string>, buf: string, limit: nat)
    requires WellFormed(h) && h.Store? && Recognised(cmds, h.kind)
    requires |PrintQuiet(h, cmds)| <= limit <= |buf| && buf[..|PrintQuiet(h, cmds)|] == PrintQuiet(h, cmds)
    ensures Coming(buf, 0, limit, Words(h, cmds) + ["noreply"])
    ensures |PrintQuiet(h, cmds)| > 0 && buf[|PrintQuiet(h, cmds)| - 1] == '\n'
  {
    var ws := Words(h, cmds) + ["noreply"];
    assert buf[0..|Line(ws)|] == buf[..|Line(ws)|];
    QuietWords(h, cmds);
    ComingIs(buf, 0, limit, ws);
    LineFeed(ws);
    assert buf[|Line(ws)| - 1] == buf[..|Line(ws)|][|Line(ws)| - 1];
  }

  lemma QuietFields(h: Header, buf: string, p: nat, limit: nat, v: seq<string>, end: nat)
    requires WellFormed(h) && h.Store? && p < limit <= |buf| && v == [h.key] + Numbers(h) + ["noreply"]
    requires v != [] && Coming(buf, p + 1, limit, v) && end == p + |Line(v)|
    ensures var r := ParseStore(buf, h.kind, p, limit);
            && r.Stored?
            && r == Stored(h.kind, r.key, h.flags, h.expTime, h.bytes, h.ticket, true, end)
            && KeyAt(buf, r.key, h.key)
  {
    StoreBack(buf, h.kind, p, limit, v, true);
    StoreNumbers(buf, h, p, limit, true);
  }

  lemma QuietWords(h: Header, cmds: seq<string>)
    requires WellFormed(h) && h.Store? && Recognised(cmds, h.kind)
    ensures AllWords(Words(h, cmds) + ["noreply"])
  {
    NumbersBack(h);
    assert Word("noreply");
    assert AllWords(Words(h, cmds));
  }

  lemma {:induction false} LineFeed(ws: seq<string>)
    requires ws != []
    ensures |Line(ws)| >= 2 && Line(ws)[|Line(ws)| - 1] == '\n'
    decreases |ws|
  {
    if |ws| > 1 { LineFeed(ws[1..]); }
  }
}
