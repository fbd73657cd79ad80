/** The text protocol header parser of src/RequestProcessor.cpp. */
module TextHeader {
  import opened Decimal
  import opened Matcher
  import opened KeywordMatcher
  import opened Sealing

  // CacheRequestType
  const GET := 0
  const SET := 1
  const ADD := 2
  const REPLACE := 4
  const CAS := 5
  const GETS := 6
  const APPEND := 7
  const PREPEND := 8
  const STATS := 14

  predicate Storing(kind: int) { kind == SET || kind == ADD || kind == REPLACE || kind == APPEND || kind == PREPEND
                                || kind == CAS }
  predicate Fetching(kind: int) { kind == GET || kind == GETS }

  /** A key in the input: where it starts and its length in 16 bits. */
  datatype Span = Span(at: nat, len: nat)

  datatype Parsed =
    | Failed
    | Aborted
    | Outside
    | Stored(kind: int, key: Span, flags: nat, expTime: nat, dataLen: nat, ticket: nat, noReply: bool, end: nat)
    | Fetched(kind: int, key: Span, more: seq<Span>, end: nat)
    | Asked(end: nat)

  /** The next space (or, with cr, carriage return) from p on, or limit. */
  function Scan(buf: string, p: nat, limit: nat, cr: bool): (q: nat)
    requires p <= limit <= |buf|
    ensures p <= q <= limit
    decreases limit - p
  {
    if p == limit || buf[p] == ' ' || (cr && buf[p] == '\r') then p else Scan(buf, p + 1, limit, cr)
  }

  function SpanOf(p: nat, q: nat): Span
    requires p <= q
  {
    Span(p, (q - p) % 0x1_0000)
  }

  /** Further keys while there are spaces; the first component is false if the input ends early. */
  function MoreKeys(buf: string, p: nat, limit: nat): (r: (bool, seq<Span>, nat))
    requires p < limit <= |buf|
    ensures r.0 ==> p <= r.2 < limit
    decreases limit - p
  {
    if buf[p] != ' ' then (true, [], p)
    else
      var q := Scan(buf, p + 1, limit, true);
      if q == limit then (false, [], p)
      else
        var r := MoreKeys(buf, q, limit);
        if r.0 then (true, [SpanOf(p + 1, q)] + r.1, r.2) else (false, [], p)
  }

  function ParseFetch(buf: string, kind: int, p: nat, limit: nat): Parsed
    requires p < limit <= |buf|
  {
    var q := Scan(buf, p + 1, limit, true);
    if q == limit then Failed
    else
      var r := MoreKeys(buf, q, limit);
      if r.0 then Fetched(kind, SpanOf(p + 1, q), r.1, r.2 + 2) else Failed
  }

  /** The fields of a storage line as text; at is where the last of them ends. */
  datatype Fields = Short | Fields(key: Span, flags: string, expTime: string, dataLen: string, ticket: string, at: nat)

  /** Data length and, for cas, ticket; c is the space before them. */
  function SizeFields(buf: string, kind: int, key: Span, flags: string, exp: string, c: nat, limit: nat): (r: Fields)
    requires c < limit <= |buf|
    ensures r.Fields? ==> r.at < limit
  {
    var d := Scan(buf, c + 1, limit, true);
    if d == limit then Short
    else if kind != CAS then Fields(key, flags, exp, buf[c + 1..d], "", d)
    else
      var e := Scan(buf, d + 1, limit, true);
      if e == limit then Short else Fields(key, flags, exp, buf[c + 1..d], buf[d + 1..e], e)
  }

  /** Expiry; b is the space before it. */
  function ExpiryFields(buf: string, kind: int, key: Span, flags: string, b: nat, limit: nat): (r: Fields)
    requires b < limit <= |buf|
    ensures r.Fields? ==> r.at < limit
  {
    var c := Scan(buf, b + 1, limit, false);
    if c == limit then Short else SizeFields(buf, kind, key, flags, buf[b + 1..c], c, limit)
  }

  /** Flags; a is the space before them. */
  function TimeFields(buf: string, kind: int, key: Span, a: nat, limit: nat): (r: Fields)
    requires a < limit <= |buf|
    ensures r.Fields? ==> r.at < limit
  {
    var b := Scan(buf, a + 1, limit, false);
    if b == limit then Short else ExpiryFields(buf, kind, key, buf[a + 1..b], b, limit)
  }

  function StoreFields(buf: string, kind: int, p: nat, limit: nat): (r: Fields)
    requires p < limit <= |buf|
    ensures r.Fields? ==> r.at < limit
  {
    var a := Scan(buf, p + 1, limit, false);
    if a == limit then Short else TimeFields(buf, kind, SpanOf(p + 1, a), a, limit)
  }

  /** The numbers of a storage header; noreply after a space, otherwise the line end. */
  function ParseStore(buf: string, kind: int, p: nat, limit: nat): Parsed
    requires p < limit <= |buf|
  {
    var r := StoreFields(buf, kind, p, limit);
    if r.Short? then Failed
    else
      Stored(kind, r.key, Atous(r.flags), Atoui(r.expTime), Atoull(r.dataLen), if kind == CAS
             then Atoull(r.ticket) else 0,
             buf[r.at] == ' ', if buf[r.at] == ' ' then r.at + 9 else r.at + 2)
  }

  /** The whole parser, for the matcher's list of commands. */
  ghost function Parse(cmds: seq<string>, buf: string, limit: nat): Parsed
    requires limit <= |buf| && Usable(cmds)
  {
    var p := Scan(buf, 0, limit, true);
    if p == limit then Failed
    else
      match Match(cmds, buf[..p])
      case OutOfRange => Outside
      case Answered(Miss) => Failed
      case Answered(Hit(kind)) =>
        if Storing(kind) then ParseStore(buf, kind, p, limit)
        else if Fetching(kind) then ParseFetch(buf, kind, p, limit)
        else if kind == STATS then Asked(p + 2)
        else Aborted
  }

  // ---- the parser ----

  class RequestInfo {
    var requestType: int
    var noReply: bool
    var key: Span
    var flags: nat
    var expTime: nat
    var casTicket: nat
    var dataLen: nat
    var keys: seq<Span>

    constructor ()
      ensures casTicket == 0 && keys == [] && !noReply
    {
      requestType, noReply, key, flags, expTime, casTicket, dataLen, keys := 18, false, Span(0, 0), 0, 0, 0, 0, [];
    }

    /** The fields hold what was parsed. */
    ghost predicate Holds(r: Parsed)
      reads this
    {
      match r
      case Stored(kind, k, f, e, d, t, n, _) =>
        requestType == kind && key == k && flags == f && expTime == e && dataLen == d && casTicket == t && noReply == n
      case Fetched(kind, k, more, _) => requestType == kind && key == k && keys == more
      case Asked(_) => requestType == STATS
      case _ => true
    }

    method ScanTo(buf: string, p: nat, limit: nat, cr: bool) returns (q: nat)
      requires p <= limit <= |buf|
      ensures q == Scan(buf, p, limit, cr)
    {
      q := p;
      while q != limit && buf[q] != ' ' && !(cr && buf[q] == '\r')
        invariant p <= q <= limit && Scan(buf, p, limit, cr) == Scan(buf, q, limit, cr)
        decreases limit - q
      {
        q := q + 1;
      }
    }

    method FetchMore(buf: string, q0: nat, limit: nat) returns (ok: bool, q: nat)
      requires q0 < limit <= |buf|
      modifies this`keys
      ensures var r := MoreKeys(buf, q0, limit);
              (ok <==> r.0) && (ok ==> q == r.2 && keys == old(keys) + r.1)
    {
      ghost var all := MoreKeys(buf, q0, limit);
      q := q0;
      assert keys + all.1 == old(keys) + all.1;
      while buf[q] == ' '
        invariant q0 <= q < limit
        invariant MoreKeys(buf, q, limit).0 == all.0
        invariant all.0 ==> keys + MoreKeys(buf, q, limit).1 == old(keys) + all.1 && MoreKeys(buf, q, limit).2 == all.2
        decreases limit - q
      {
        var p1 := q + 1;
        q := ScanTo(buf, p1, limit, true);
        if q == limit { return false, q; }
        ghost var more := MoreKeys(buf, q, limit).1;
        assert keys + ([SpanOf(p1, q)] + more) == (keys + [SpanOf(p1, q)]) + more;
        keys := keys + [SpanOf(p1, q)];
      }
      assert keys + [] == keys;
      ok := true;
    }

    method FetchHeader(buf: string, p: nat, limit: nat) returns (ok: bool, end: nat)
      requires p < limit <= |buf| && keys == []
      modifies this`key, this`keys
      ensures var r := ParseFetch(buf, requestType, p, limit);
              (ok <==> r.Fetched?) && (ok ==> end == r.end && key == r.key && keys == r.more)
    {
      ok, end := false, p;
      var q := ScanTo(buf, p + 1, limit, true);
      if q == limit { return; }
      key := SpanOf(p + 1, q);
      ok, q := FetchMore(buf, q, limit);
      end := q + 2;
    }

    method StoreSizes(buf: string, c: nat, limit: nat, ghost flagText: string, ghost expText: string)
      returns (ok: bool, at: nat)
      requires c < limit <= |buf| && casTicket == 0
      modifies this`dataLen, this`casTicket
      ensures var r := SizeFields(buf, requestType, key, flagText, expText, c, limit);
              && (ok <==> r.Fields?)
              && (ok ==>
                  at == r.at && dataLen == Atoull(r.dataLen)
                  && casTicket == if requestType == CAS then Atoull(r.ticket) else 0)
    {
      ok, at := false, c;
      var d := ScanTo(buf, c + 1, limit, true);
      if d == limit { return; }
      dataLen := AtoullLoop(buf[c + 1..d]);
      if requestType == CAS {
        var e := ScanTo(buf, d + 1, limit, true);
        if e == limit { return; }
        casTicket := AtoullLoop(buf[d + 1..e]);
        d := e;
      }
      ok, at := true, d;
    }

    method StoreExpiry(buf: string, b: nat, limit: nat, ghost flagText: string) returns (ok: bool, at: nat)
      requires b < limit <= |buf| && casTicket == 0
      modifies this`expTime, this`dataLen, this`casTicket
      ensures var r := ExpiryFields(buf, requestType, key, flagText, b, limit);
              && (ok <==> r.Fields?)
              && (ok ==> at == r.at && expTime == Atoui(r.expTime) && dataLen == Atoull(r.dataLen)
                         && casTicket == if requestType == CAS then Atoull(r.ticket) else 0)
    {
      ok, at := false, b;
      var c := ScanTo(buf, b + 1, limit, false);
      if c == limit { return; }
      ghost var text := buf[b + 1..c];
      expTime := Atoui(buf[b + 1..c]);
      ok, at := StoreSizes(buf, c, limit, flagText, text);
    }

    method StoreTimes(buf: string, a: nat, limit: nat) returns (ok: bool, at: nat)
      requires a < limit <= |buf| && casTicket == 0
      modifies this`flags, this`expTime, this`dataLen, this`casTicket
      ensures var r := TimeFields(buf, requestType, key, a, limit);
              && (ok <==> r.Fields?)
              && (ok ==> at == r.at && flags == Atous(r.flags) && expTime == Atoui(r.expTime)
                         && dataLen == Atoull(r.dataLen)
                              && casTicket == if requestType == CAS then Atoull(r.ticket) else 0)
    {
      ok, at := false, a;
      var b := ScanTo(buf, a + 1, limit, false);
      if b == limit { return; }
      ghost var text := buf[a + 1..b];
      flags := Atous(buf[a + 1..b]);
      ok, at := StoreExpiry(buf, b, limit, text);
    }

    method StoreHeader(buf: string, p: nat, limit: nat) returns (ok: bool, end: nat)
      requires p < limit <= |buf| && casTicket == 0 && !noReply
      modifies this`key, this`flags, this`expTime, this`dataLen, this`casTicket, this`noReply
      ensures var r := ParseStore(buf, requestType, p, limit);
              (ok <==> r.Stored?) && (ok ==> end == r.end && Holds(r))
    {
      ok, end := false, p;
      var a := ScanTo(buf, p + 1, limit, false);
      if a == limit { return; }
      key := SpanOf(p + 1, a);
      var at;
      ok, at := StoreTimes(buf, a, limit);
      if ok {
        if buf[at] == ' ' {
          noReply := true;
          end := at + 9;
        } else {
          end := at + 2;
        }
      }
    }

    /** parseMemcachedHeader on a fresh request. */
    method ParseHeader(buf: string, limit: nat, matcher: FastSubstringMatcher, ghost cmds: seq<string>)
      returns (ok: bool, aborted: bool, outside: bool, end: nat)
      requires limit <= |buf| && casTicket == 0 && !noReply && keys == []
      requires Usable(cmds) && matcher.Valid() && Selects(cmds, matcher.selector[..])
      modifies this
      ensures var r := Parse(cmds, buf, limit);
              && (aborted <==> r.Aborted?) && (outside <==> r.Outside?) && (ok <==> r.Stored? || r.Fetched? || r.Asked?)
              && (ok ==> end == r.end && Holds(r))
    {
      ok, aborted, outside, end := false, false, false, 0;
      var p := ScanTo(buf, 0, limit, true);
      if p == limit { return; }
      var found := matcher.MatchSubstring(buf[..p]);
      if found.OutOfRange? {
        outside := true;
        return;
      }
      if found.a.Miss? { return; }
      requestType := found.a.idx;
      if Storing(requestType) {
        ok, end := StoreHeader(buf, p, limit);
      } else if Fetching(requestType) {
        ok, end := FetchHeader(buf, p, limit);
      } else if requestType == STATS {
        ok, end := true, p + 2;
      } else {
        aborted := true;
      }
    }
  }

  // ---- printing ----

  /** Words separated by spaces and closed by a line end. */
  function Line(ws: seq<string>): string
    requires ws != []
  {
    if |ws| == 1 then ws[0] + "\r\n" else ws[0] + " " + Line(ws[1..])
  }

  ghost predicate Word(w: string) {
    forall i {:trigger w[i]} :: 0 <= i < |w| ==> w[i] != ' ' && w[i] != '\r'
  }

  datatype Header =
    | Store(kind: int, key: string, flags: nat, expTime: nat, bytes: nat, ticket: nat)
    | Fetch(kind: int, keys: seq<string>)

  ghost predicate WellFormed(h: Header) {
    match h
    case Store(kind, key, flags, expTime, bytes, ticket) =>
      && Storing(kind) && Word(key) && |key| < 0x1_0000
      && flags < 0x1_0000 && expTime < 0x8000_0000 && bytes < MAX_ULL && ticket < MAX_ULL
           && (kind != CAS ==> ticket == 0)
    case Fetch(kind, keys) =>
      && Fetching(kind) && keys != []
      && forall i {:trigger keys[i]} :: 0 <= i < |keys| ==> Word(keys[i]) && |keys[i]| < 0x1_0000
  }

  function Words(h: Header, cmds: seq<string>): (ws: seq<string>)
    requires 0 <= h.kind < |cmds|
    ensures |ws| > 0
  {
    match h
    case Store(kind, key, flags, expTime, bytes, ticket) =>
      [cmds[kind], key] + Numbers(h)
    case Fetch(kind, keys) => [cmds[kind]] + keys
  }

  function Numbers(h: Header): (ws: seq<string>)
    requires h.Store?
    ensures |ws| == if h.kind == CAS then 4 else 3
  {
    var ws := [Text(h.flags), Text(h.expTime), Text(h.bytes)];
    if h.kind == CAS then ws + [Text(h.ticket)] else ws
  }

  function Print(h: Header, cmds: seq<string>): string
    requires 0 <= h.kind < |cmds|
  {
    Line(Words(h, cmds))
  }

  // ---- scanning a printed line ----

  /** The rest of the buffer from p on begins with the line of ws, within the limit. */
  ghost predicate Ahead(buf: string, p: nat, limit: nat, ws: seq<string>) {
    && ws != [] && p + |Line(ws)| <= limit <= |buf|
    && buf[p..p + |Line(ws)|] == Line(ws)
  }

  lemma {:induction false} ScanStops(buf: string, p: nat, q: nat, limit: nat, cr: bool)
    requires p <= q < limit <= |buf| && (buf[q] == ' ' || (cr && buf[q] == '\r'))
    requires forall i {:trigger buf[i]} :: p <= i < q ==> buf[i] != ' ' && buf[i] != '\r'
    ensures Scan(buf, p, limit, cr) == q
    decreases q - p
  {
    if p < q { ScanStops(buf, p + 1, q, limit, cr); }
  }

  /** `Ahead` for words of a line, unfolded only where `ComingIs` calls for it. */
  ghost predicate Coming(buf: string, p: nat, limit: nat, ws: seq<string>) {
    forall u {:trigger Look(u)} :: Look(u) ==> Ahead(buf, p, limit, ws) && AllWords(ws)
  }

  lemma ComingIs(buf: string, p: nat, limit: nat, ws: seq<string>)
    ensures Coming(buf, p, limit, ws) <==> Ahead(buf, p, limit, ws) && AllWords(ws)
  {
    assert Look(0);
  }

  ghost predicate AllWords(ws: seq<string>) {
    forall i {:trigger ws[i]} :: 0 <= i < |ws| ==> Word(ws[i]) && |ws[i]| < 0x1_0000
  }

  /** A word that is not the last. */
  lemma MidWord(buf: string, p: nat, limit: nat, ws: seq<string>) returns (q: nat, v: seq<string>, len: nat, rest: nat)
    requires Coming(buf, p, limit, ws) && |ws| > 1 && p <= limit <= |buf|
    ensures q == p + |ws[0]| && p <= q < limit && buf[p..q] == ws[0] && |ws[0]| < 0x1_0000 && buf[q] == ' '
    ensures Scan(buf, p, limit, true) == q && Scan(buf, p, limit, false) == q
    ensures v == ws[1..] && Coming(buf, q + 1, limit, v) && len == |Line(ws)| && rest == |Line(v)|
    ensures p + len == q + 1 + rest
  {
    ComingIs(buf, p, limit, ws);
    q := NextWord(buf, p, limit, ws);
    v := ws[1..];
    len, rest := |Line(ws)|, |Line(v)|;
    ComingIs(buf, q + 1, limit, v);
  }

  lemma LastWord(buf: string, p: nat, limit: nat, ws: seq<string>) returns (q: nat)
    requires Coming(buf, p, limit, ws) && |ws| == 1 && p <= limit <= |buf|
    ensures q == p + |ws[0]| && p <= q < limit && buf[p..q] == ws[0] && |ws[0]| < 0x1_0000 && buf[q] == '\r'
    ensures Scan(buf, p, limit, true) == q && q + 2 == p + |Line(ws)|
  {
    ComingIs(buf, p, limit, ws);
    q := NextWord(buf, p, limit, ws);
  }

  /** One word of the line: where it ends, what it is and what comes next. */
  lemma NextWord(buf: string, p: nat, limit: nat, ws: seq<string>) returns (q: nat)
    requires Ahead(buf, p, limit, ws) && Word(ws[0])
    ensures q == p + |ws[0]| && q + 1 < limit && buf[p..q] == ws[0]
    ensures Scan(buf, p, limit, true) == q
    ensures |ws| > 1 ==> buf[q] == ' ' && Scan(buf, p, limit, false) == q && Ahead(buf, q + 1, limit, ws[1..])
    ensures |ws| == 1 ==> buf[q] == '\r' && q + 2 == p + |Line(ws)|
  {
    var line, w := Line(ws), ws[0];
    q := p + |w|;
    var end := p + |line|;
    var sub := buf[p..end];
    forall i | 0 <= i < |line| ensures buf[p + i] == line[i] { assert sub[i] == line[i]; }
    forall i | p <= i < q ensures buf[i] != ' ' && buf[i] != '\r' {
      assert buf[p + (i - p)] == line[i - p] == w[i - p];
    }
    assert buf[p..q] == w by {
      forall i | 0 <= i < |w| ensures buf[p..q][i] == w[i] { assert buf[p + i] == line[i]; }
    }
    assert buf[p + |w|] == line[|w|];
    ScanStops(buf, p, q, limit, true);
    if |ws| > 1 {
      ScanStops(buf, p, q, limit, false);
      RestOfLine(buf, p, limit, ws);
    }
  }

  lemma RestOfLine(buf: string, p: nat, limit: nat, ws: seq<string>)
    requires Ahead(buf, p, limit, ws) && |ws| > 1
    ensures Ahead(buf, p + |ws[0]| + 1, limit, ws[1..])
  {
    var q, rest := p + |ws[0]| + 1, Line(ws[1..]);
    var line := Line(ws);
    assert line == ws[0] + " " + rest;
    assert line[|ws[0]| + 1..] == rest;
    assert buf[p..p + |line|][|ws[0]| + 1..] == buf[q..q + |rest|];
  }

  // ---- what comes back ----

  /** The key at a place in the buffer. */
  ghost predicate KeyAt(buf: string, k: Span, key: string) {
    forall u {:trigger Look(u)} :: Look(u) ==> k.len == |key| && k.at + k.len <= |buf| && buf[k.at..k.at + k.len] == key
  }

  lemma KeyAtIs(buf: string, k: Span, key: string)
    ensures KeyAt(buf, k, key) <==> k.len == |key| && k.at + k.len <= |buf| && buf[k.at..k.at + k.len] == key
  {
    assert Look(0);
  }

  lemma SpanKey(buf: string, p: nat, q: nat, w: string)
    requires p <= q <= |buf| && buf[p..q] == w && |w| < 0x1_0000
    ensures KeyAt(buf, SpanOf(p, q), w)
  {
    assert (q - p) % 0x1_0000 == q - p;
    KeyAtIs(buf, SpanOf(p, q), w);
  }

  lemma {:induction false} MoreKeysBack(buf: string, q: nat, limit: nat, ws: seq<string>)
    requires q < limit <= |buf| && buf[q] == ' ' && Coming(buf, q + 1, limit, ws) && ws != []
    ensures var r := MoreKeys(buf, q, limit);
            && r.0 && |r.1| == |ws| && r.2 + 2 == q + 1 + |Line(ws)|
            && forall i {:trigger r.1[i]} :: 0 <= i < |ws| ==> KeyAt(buf, r.1[i], ws[i])
    decreases |ws|
  {
    if |ws| > 1 {
      var p, rest, len, left := MidWord(buf, q + 1, limit, ws);
      SpanKey(buf, q + 1, p, ws[0]);
      MoreKeysBack(buf, p, limit, rest);
      var r, m := MoreKeys(buf, q, limit), MoreKeys(buf, p, limit);
      assert r.1 == [SpanOf(q + 1, p)] + m.1;
      forall i | 0 <= i < |ws| ensures KeyAt(buf, r.1[i], ws[i]) {
        if i > 0 { assert r.1[i] == m.1[i - 1] && ws[i] == rest[i - 1]; }
      }
    } else {
      var p := LastWord(buf, q + 1, limit, ws);
      SpanKey(buf, q + 1, p, ws[0]);
      assert MoreKeys(buf, p, limit) == (true, [], p);
    }
  }

  /** The command at the start of a printed line is recognised if it is matched as itself. */
  lemma CommandBack(cmds: seq<string>, buf: string, limit: nat, kind: nat, ws: seq<string>)
    returns (p: nat, v: seq<string>)
    requires Usable(cmds) && kind < |cmds| && Match(cmds, cmds[kind]) == Answered(Hit(kind))
    requires Coming(buf, 0, limit, ws) && |ws| > 1 && ws[0] == cmds[kind] && limit <= |buf|
    ensures p == Scan(buf, 0, limit, true) < limit && Match(cmds, buf[..p]) == Answered(Hit(kind))
    ensures v == ws[1..] && Coming(buf, p + 1, limit, v) && p + 1 + |Line(v)| == |Line(ws)|
  {
    var len, rest;
    p, v, len, rest := MidWord(buf, 0, limit, ws);
    assert buf[..p] == buf[0..p] == cmds[kind];
  }

  /** Keys of get and gets. */
  lemma KeysBack(buf: string, kind: int, p: nat, limit: nat, ws: seq<string>)
    requires p < limit <= |buf| && Coming(buf, p + 1, limit, ws) && ws != []
    ensures var r := ParseFetch(buf, kind, p, limit);
            && r.Fetched? && r.kind == kind && r.end == p + 1 + |Line(ws)| && |r.more| == |ws| - 1
            && KeyAt(buf, r.key, ws[0])
            && forall i {:trigger r.more[i]} :: 0 <= i < |r.more| ==> KeyAt(buf, r.more[i], ws[i + 1])
  {
    if |ws| > 1 {
      var q, rest, len, left := MidWord(buf, p + 1, limit, ws);
      SpanKey(buf, p + 1, q, ws[0]);
      MoreKeysBack(buf, q, limit, rest);
      var r := ParseFetch(buf, kind, p, limit);
      forall i | 0 <= i < |r.more| ensures KeyAt(buf, r.more[i], ws[i + 1]) { assert rest[i] == ws[i + 1]; }
    } else {
      var q := LastWord(buf, p + 1, limit, ws);
      SpanKey(buf, p + 1, q, ws[0]);
      assert MoreKeys(buf, q, limit) == (true, [], q);
    }
  }

  /** The words behind n others: a line of n + 1 words, or one of n + 2 that ends in noreply. */
  ghost predicate Closing(ws: seq<string>, n: nat, quiet: bool) {
    if quiet then |ws| == n + 2 && ws[n + 1] == "noreply" else |ws| == n + 1
  }

  function Ending(quiet: bool): char { if quiet then ' ' else '\r' }

  /** The length of the rest of the line from the end of the last field on. */
  function Rest(quiet: bool): nat { if quiet then 10 else 2 }

  lemma ClosingRest(ws: seq<string>, n: nat, quiet: bool)
    requires Closing(ws, n + 1, quiet)
    ensures ws != [] && Closing(ws[1..], n, quiet)
  {}

  /** The last field of a storage line. */
  lemma FieldEnds(buf: string, p: nat, limit: nat, ws: seq<string>, quiet: bool) returns (q: nat)
    requires Coming(buf, p, limit, ws) && Closing(ws, 0, quiet) && p <= limit <= |buf|
    ensures q == p + |ws[0]| && p <= q < limit && buf[p..q] == ws[0] && buf[q] == Ending(quiet)
    ensures Scan(buf, p, limit, true) == q && q + Rest(quiet) == p + |Line(ws)|
  {
    if quiet {
      var v, len, rest;
      q, v, len, rest := MidWord(buf, p, limit, ws);
      assert v == ["noreply"];
    } else {
      q := LastWord(buf, p, limit, ws);
    }
  }

  lemma TicketBack(buf: string, key: Span, flags: string, exp: string, c: nat, limit: nat, ws: seq<string>, quiet: bool)
    requires c < limit <= |buf| && Coming(buf, c + 1, limit, ws) && Closing(ws, 1, quiet)
    ensures var r := SizeFields(buf, CAS, key, flags, exp, c, limit);
            && r.Fields? && r.key == key && r.flags == flags && r.expTime == exp && r.dataLen == ws[0]
                 && r.ticket == ws[1]
            && r.at < limit && buf[r.at] == Ending(quiet) && r.at + Rest(quiet) == c + 1 + |Line(ws)|
  {
    ClosingRest(ws, 0, quiet);
    var d, v, len, left := MidWord(buf, c + 1, limit, ws);
    var e := FieldEnds(buf, d + 1, limit, v, quiet);
    TicketFields(buf, key, flags, exp, c, d, e, limit);
  }

  lemma TicketFields(buf: string, key: Span, flags: string, exp: string, c: nat, d: nat, e: nat, limit: nat)
    requires c < d < e < limit <= |buf| && Scan(buf, c + 1, limit, true) == d && Scan(buf, d + 1, limit, true) == e
    ensures SizeFields(buf, CAS, key, flags, exp, c, limit) == Fields(key, flags, exp, buf[c + 1..d], buf[d + 1..e], e)
  {}

  lemma LengthBack(buf: string, kind: int, key: Span, flags: string, exp: string, c: nat, limit: nat, ws: seq<string>,
                   quiet: bool)
    requires kind != CAS && c < limit <= |buf| && Coming(buf, c + 1, limit, ws) && Closing(ws, 0, quiet)
    ensures var r := SizeFields(buf, kind, key, flags, exp, c, limit);
            && r.Fields? && r.key == key && r.flags == flags && r.expTime == exp && r.dataLen == ws[0]
            && r.at < limit && buf[r.at] == Ending(quiet) && r.at + Rest(quiet) == c + 1 + |Line(ws)|
  {
    var d := FieldEnds(buf, c + 1, limit, ws, quiet);
  }

  /** The fields of a printed storage line. */
  lemma SizesBack(buf: string, kind: int, key: Span, flags: string, exp: string, c: nat, limit: nat, ws: seq<string>,
                  quiet: bool)
    requires c < limit <= |buf| && Coming(buf, c + 1, limit, ws) && Closing(ws, if kind == CAS then 1 else 0, quiet)
    ensures var r := SizeFields(buf, kind, key, flags, exp, c, limit);
            && r.Fields? && r.key == key && r.flags == flags && r.expTime == exp && r.dataLen == ws[0]
                 && (kind == CAS ==> r.ticket == ws[1])
            && r.at < limit && buf[r.at] == Ending(quiet) && r.at + Rest(quiet) == c + 1 + |Line(ws)|
  {
    if kind == CAS {
      TicketBack(buf, key, flags, exp, c, limit, ws, quiet);
    } else {
      LengthBack(buf, kind, key, flags, exp, c, limit, ws, quiet);
    }
  }

  lemma ExpiryBack(buf: string, kind: int, key: Span, flags: string, b: nat, limit: nat, ws: seq<string>,
                   quiet: bool)
    requires b < limit <= |buf| && Coming(buf, b + 1, limit, ws) && Closing(ws, if kind == CAS then 2 else 1, quiet)
    ensures var r := ExpiryFields(buf, kind, key, flags, b, limit);
            && r.Fields? && r.key == key && r.flags == flags && r.expTime == ws[0] && r.dataLen == ws[1]
                 && (kind == CAS ==> r.ticket == ws[2])
            && r.at < limit && buf[r.at] == Ending(quiet) && r.at + Rest(quiet) == b + 1 + |Line(ws)|
  {
    ClosingRest(ws, if kind == CAS then 1 else 0, quiet);
    var c, u, len, left := MidWord(buf, b + 1, limit, ws);
    SizesBack(buf, kind, key, flags, ws[0], c, limit, u, quiet);
  }

  lemma TimesBack(buf: string, kind: int, key: Span, a: nat, limit: nat, ws: seq<string>, quiet: bool)
    requires a < limit <= |buf| && Coming(buf, a + 1, limit, ws) && Closing(ws, if kind == CAS then 3 else 2, quiet)
    ensures var r := TimeFields(buf, kind, key, a, limit);
            && r.Fields? && r.key == key && r.flags == ws[0] && r.expTime == ws[1] && r.dataLen == ws[2]
                 && (kind == CAS ==> r.ticket == ws[3])
            && r.at < limit && buf[r.at] == Ending(quiet) && r.at + Rest(quiet) == a + 1 + |Line(ws)|
  {
    ClosingRest(ws, if kind == CAS then 2 else 1, quiet);
    var b, v, len, left := MidWord(buf, a + 1, limit, ws);
    ExpiryBack(buf, kind, key, ws[0], b, limit, v, quiet);
  }

  lemma StoreBack(buf: string, kind: int, p: nat, limit: nat, ws: seq<string>, quiet: bool)
    requires p < limit <= |buf| && Coming(buf, p + 1, limit, ws) && Closing(ws, if kind == CAS then 4 else 3, quiet)
    ensures var r := StoreFields(buf, kind, p, limit);
            && r.Fields? && r.flags == ws[1] && r.expTime == ws[2] && r.dataLen == ws[3]
                 && (kind == CAS ==> r.ticket == ws[4])
            && r.at < limit && buf[r.at] == Ending(quiet) && r.at + Rest(quiet) == p + 1 + |Line(ws)|
            && KeyAt(buf, r.key, ws[0])
  {
    ClosingRest(ws, if kind == CAS then 3 else 2, quiet);
    var a, v, len, left := MidWord(buf, p + 1, limit, ws);
    SpanKey(buf, p + 1, a, ws[0]);
    assert StoreFields(buf, kind, p, limit) == TimeFields(buf, kind, SpanOf(p + 1, a), a, limit);
    TimesBack(buf, kind, SpanOf(p + 1, a), a, limit, v, quiet);
  }

  // ---- round trips ----

  lemma DigitsAreWords(v: nat)
    requires v < MAX_ULL
    ensures Word(Text(v)) && |Text(v)| <= 20
  {
    Powers();
    NumberText(v);
    TextLength(v, 20);
  }

  lemma NumbersBack(h: Header)
    requires WellFormed(h) && h.Store?
    ensures var ws := Numbers(h);
            && AllWords(ws) && Atous(ws[0]) == h.flags && Atoui(ws[1]) == h.expTime && Atoull(ws[2]) == h.bytes
            && (h.kind == CAS ==> Atoull(ws[3]) == h.ticket)
  {
    DigitsAreWords(h.flags);
    DigitsAreWords(h.expTime);
    DigitsAreWords(h.bytes);
    DigitsAreWords(h.ticket);
    RoundTrip(h.flags);
    RoundTrip(h.expTime);
    RoundTrip(h.bytes);
    RoundTrip(h.ticket);
  }

  ghost predicate Recognised(cmds: seq<string>, kind: int) {
    Usable(cmds) && 0 <= kind < |cmds| && Word(cmds[kind]) && |cmds[kind]| < 256
      && Match(cmds, cmds[kind]) == Answered(Hit(kind))
  }

  /** The buffer holds a printed header, whatever follows it. */
  ghost predicate Begins(h: Header, cmds: seq<string>, buf: string, limit: nat)
    requires 0 <= h.kind < |cmds|
  {
    |Print(h, cmds)| <= limit <= |buf| && buf[..|Print(h, cmds)|] == Print(h, cmds)
  }

  lemma PrintedComing(h: Header, cmds: seq<string>, buf: string, limit: nat)
    requires WellFormed(h) && Recognised(cmds, h.kind) && Begins(h, cmds, buf, limit)
    ensures Coming(buf, 0, limit, Words(h, cmds))
  {
    var ws := Words(h, cmds);
    assert buf[0..|Line(ws)|] == buf[..|Line(ws)|];
    if h.Store? { NumbersBack(h); }
    assert AllWords(ws);
    ComingIs(buf, 0, limit, ws);
  }

  /** Storage commands: key, flags, expiry, length and ticket come back, and the end is just after
      the line. */
  lemma StoreRoundTrip(h: Header, cmds: seq<string>, buf: string, limit: nat)
    requires WellFormed(h) && h.Store? && Recognised(cmds, h.kind) && Begins(h, cmds, buf, limit)
    ensures var r := Parse(cmds, buf, limit);
            && r.Stored? && r == Stored(h.kind, r.key, h.flags, h.expTime, h.bytes, h.ticket, false, |Print(h, cmds)|)
            && KeyAt(buf, r.key, h.key)
  {
    var ws := Words(h, cmds);
    NumbersBack(h);
    PrintedComing(h, cmds, buf, limit);
    var p, v := CommandBack(cmds, buf, limit, h.kind, ws);
    assert v == [h.key] + Numbers(h);
    StoreBack(buf, h.kind, p, limit, v, false);
    StoreNumbers(buf, h, p, limit, false);
    ParseGoes(cmds, buf, limit, h.kind, p);
  }

  lemma ParseGoes(cmds: seq<string>, buf: string, limit: nat, kind: int, p: nat)
    requires limit <= |buf| && Usable(cmds) && p == Scan(buf, 0, limit, true) < limit
    requires Match(cmds, buf[..p]) == Answered(Hit(kind))
    ensures Storing(kind) ==> Parse(cmds, buf, limit) == ParseStore(buf, kind, p, limit)
    ensures Fetching(kind) ==> Parse(cmds, buf, limit) == ParseFetch(buf, kind, p, limit)
  {}

  lemma StoreNumbers(buf: string, h: Header, p: nat, limit: nat, quiet: bool)
    requires WellFormed(h) && h.Store? && p < limit <= |buf|
    requires var r, ns := StoreFields(buf, h.kind, p, limit), Numbers(h);
             && r.Fields? && r.flags == ns[0] && r.expTime == ns[1] && r.dataLen == ns[2]
                  && (h.kind == CAS ==> r.ticket == ns[3])
             && r.at < limit && buf[r.at] == Ending(quiet)
    ensures var f := StoreFields(buf, h.kind, p, limit);
            ParseStore(buf, h.kind, p, limit) ==
              Stored(h.kind, f.key, h.flags, h.expTime, h.bytes, h.ticket, quiet,
                     f.at + (if quiet then Rest(quiet) - 1 else Rest(quiet)))
  {
    NumbersBack(h);
  }

  /** get and gets: all keys come back in order, and the end is just after the line. */
  lemma FetchRoundTrip(h: Header, cmds: seq<string>, buf: string, limit: nat)
    requires WellFormed(h) && h.Fetch? && Recognised(cmds, h.kind) && Begins(h, cmds, buf, limit)
    ensures var r := Parse(cmds, buf, limit);
            && r.Fetched? && r.kind == h.kind && r.end == |Print(h, cmds)| && |r.more| == |h.keys| - 1
            && KeyAt(buf, r.key, h.keys[0])
            && forall i {:trigger r.more[i]} :: 0 <= i < |r.more| ==> KeyAt(buf, r.more[i], h.keys[i + 1])
  {
    var ws := Words(h, cmds);
    PrintedComing(h, cmds, buf, limit);
    var p, v := CommandBack(cmds, buf, limit, h.kind, ws);
    assert v == h.keys;
    KeysBack(buf, h.kind, p, limit, h.keys);
    ParseGoes(cmds, buf, limit, h.kind, p);
  }

  lemma WordsOfCommands(kind: nat)
    requires kind < |COMMANDS|
    ensures Word(COMMANDS[kind])
  {}

  /** The server's own list of commands is recognised, so both round trips hold for it. */
  lemma ServerRecognises(kind: nat)
    requires kind < |COMMANDS|
    ensures Recognised(COMMANDS, kind)
  {
    WordsOfCommands(kind);
    CommandsMatch(kind);
  }

  /** The lookup of the command reads outside the matcher's array exactly for a first token of 256
      bytes or more. */
  lemma OutsideIff(cmds: seq<string>, buf: string, limit: nat)
    requires limit <= |buf| && Usable(cmds)
    ensures Parse(cmds, buf, limit).Outside? <==> 256 <= Scan(buf, 0, limit, true) < limit
  {}

  /** 256 letters and a line end. */
  lemma LongTokenOutside()
    ensures Usable(COMMANDS) && Parse(COMMANDS, seq(256, _ => 'x') + "\r\n", 258) == Outside
  {
    CommandsUsable();
    var buf := seq(256, _ => 'x') + "\r\n";
    ScanStops(buf, 0, 256, 258, true);
    OutsideIff(COMMANDS, buf, 258);
  }
}
