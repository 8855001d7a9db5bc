/** Header rewriting on the way to and from a backend (`src/upstream/mod.rs`), and the replay of a
    buffered request (`src/http/mod.rs`). */
module Headers {
  import opened Common
  import opened Text

  /** Header names are lower case; each has one or more values, whose order matters. The order
      between different names does not. */
  type Entries = map<string, seq<string>>

  const CONNECTION := "connection"
  const HOST := "host"
  const X_FORWARDED_FOR := "x-forwarded-for"
  const X_FORWARDED_PROTO := "x-forwarded-proto"
  const FORWARDED := "forwarded"
  const CONTENT_LENGTH := "content-length"

  /** The names that never pass a proxy. */
  const HOP_BY_HOP: set<string> := {
    CONNECTION, "keep-alive", "proxy-authenticate", "proxy-authorization", "te", "trailer",
    "transfer-encoding", "upgrade", "proxy-connection" }

  const REWRITTEN: set<string> := {HOST, X_FORWARDED_FOR, X_FORWARDED_PROTO, FORWARDED}

  ghost predicate WellFormed(m: Entries) {
    forall n :: n in m ==> m[n] != []
  }

  /** Values that can be read, and built, as text. */
  predicate Readable(v: string) {
    forall i :: 0 <= i < |v| ==> ' ' <= v[i] <= '~' || v[i] == '\t'
  }

  /** Token characters, section 5.6.2 of RFC 9110. */
  predicate TokenChar(c: char) {
    || 'a' <= c <= 'z' || 'A' <= c <= 'Z' || '0' <= c <= '9'
    || c in "!#$%&'*+-.^_`|~"
  }

  predicate ValidName(s: string) {
    0 < |s| < 0x1_0000 && forall i :: 0 <= i < |s| ==> TokenChar(s[i])
  }

  /** Visible ASCII, spaces and tabs. */
  lemma ReadableMeans(v: string)
    ensures Readable(v) <==> forall c :: c in v ==> c as int == 9 || 32 <= c as int < 127
  {
    if Readable(v) {
      forall c | c in v ensures c as int == 9 || 32 <= c as int < 127 {
        var i :| 0 <= i < |v| && v[i] == c;
      }
    } else {
      var i :| 0 <= i < |v| && !(' ' <= v[i] <= '~' || v[i] == '\t');
      assert v[i] in v;
    }
  }

  /** Token characters are the visible characters without the delimiters, section 5.6.2 of RFC 9110. */
  lemma TokensAreVisible(c: char)
    ensures TokenChar(c) <==> '!' <= c <= '~' && c !in "\"(),/:;<=>?@[\\]{}"
  {
    if '!' <= c <= '~' {
      var i := c as int;
      assert c == (i as char);
    }
  }

  /** A header name has at least one and at most 65535 of them. */
  lemma NamesMean(s: string)
    ensures ValidName(s)
       <==> 1 <= |s| <= 65_535 && forall i :: 0 <= i < |s| ==> '!' <= s[i] <= '~' && s[i] !in "\"(),/:;<=>?@[\\]{}"
  {
    forall i | 0 <= i < |s| ensures TokenChar(s[i]) <==> '!' <= s[i] <= '~' && s[i] !in "\"(),/:;<=>?@[\\]{}" {
      TokensAreVisible(s[i]);
    }
    hide TokenChar;
  }

  // ---------------------------------------------------------------------------------------------
  // Which headers are hop-by-hop
  // ---------------------------------------------------------------------------------------------

  /** A name that the first Connection value lists (section 7.6.1 of RFC 9110); later Connection
      values are not looked at. */
  ghost predicate Listed(m: Entries, name: string)
    requires WellFormed(m)
  {
    && CONNECTION in m && Readable(m[CONNECTION][0]) && ValidName(name)
    && exists piece :: ListedAs(m[CONNECTION][0], piece, name)
  }

  ghost predicate ListedAs(value: string, piece: string, name: string) {
    && (FirstPiece(value, ',', piece) || LaterPiece(value, ',', piece))
    && Lower(Trim(piece)) == name
  }

  /** `m` without its hop-by-hop headers, all others untouched. */
  ghost predicate SanitizedTo(m: Entries, r: Entries)
    requires WellFormed(m)
  {
    && (forall n :: n in r <==> n in m && n !in HOP_BY_HOP && !Listed(m, n))
    && (forall n :: n in r ==> r[n] == m[n])
  }

  lemma SanitizedIsUnique(m: Entries, r: Entries, s: Entries)
    requires WellFormed(m) && SanitizedTo(m, r) && SanitizedTo(m, s)
    ensures r == s
  {
    assert r.Keys == s.Keys;
  }

  /** Sanitising what is sanitised already changes nothing. */
  lemma SanitizingIsIdempotent(m: Entries, r: Entries)
    requires WellFormed(m) && SanitizedTo(m, r)
    ensures WellFormed(r) && SanitizedTo(r, r)
  {
  }

  class HeaderMap {
    var entries: Entries

    constructor (entries: Entries)
      ensures this.entries == entries
    {
      this.entries := entries;
    }

    function Get(name: string): Option<string>
      requires WellFormed(entries)
      reads this
    {
      if name in entries then Some(entries[name][0]) else None
    }

    method Remove(name: string)
      modifies this
      ensures entries == old(entries) - {name}
    {
      entries := entries - {name};
    }

    method Insert(name: string, value: string)
      modifies this
      ensures entries == old(entries)[name := [value]]
    {
      entries := entries[name := [value]];
    }

    /** Strips the hop-by-hop headers. The names to strip are collected in a set and removed in
        whatever order the set yields them; the result is the same for all. */
    method SanitizeHopByHop()
      requires WellFormed(entries)
      modifies this
      ensures WellFormed(entries) && SanitizedTo(old(entries), entries)
    {
      var stripNames := HOP_BY_HOP;
      var value := Get(CONNECTION);
      if value.Some? && Readable(value.value) {
        var tokens := Split(value.value, ',');
        for i := 0 to |tokens|
          invariant forall n :: n in stripNames <==>
            n in HOP_BY_HOP || (ValidName(n) && exists k :: 0 <= k < i && Lower(Trim(tokens[k])) == n)
        {
          var token := Lower(Trim(tokens[i]));
          if ValidName(token) {
            stripNames := stripNames + {token};
          }
        }
      }
      StripNamesAreListed(entries, stripNames);
      ghost var all := stripNames;
      while stripNames != {}
        invariant stripNames <= all
        invariant entries == old(entries) - (all - stripNames)
        decreases stripNames
      {
        var name :| name in stripNames;
        Remove(name);
        stripNames := stripNames - {name};
      }
      assert all - {} == all;
    }

    /** Replaces whatever the client said about the connection by what the proxy knows. */
    method ApplyForwarding(authority: Option<string>, clientIp: Option<string>)
      requires WellFormed(entries)
      modifies this
      ensures WellFormed(entries) && ForwardedTo(old(entries), entries, authority, clientIp)
    {
      Remove(HOST);
      Remove(X_FORWARDED_FOR);
      Remove(X_FORWARDED_PROTO);
      Remove(FORWARDED);
      assert entries == old(entries) - REWRITTEN;

      if authority.Some? && Readable(authority.value) {
        Insert(HOST, authority.value);
      }

      if clientIp.Some? {
        if Readable(clientIp.value) {
          Insert(X_FORWARDED_FOR, clientIp.value);
        }
        Insert(X_FORWARDED_PROTO, "http");
        var forwarded := "for=" + FormatForwardedFor(clientIp.value) + ";proto=http";
        if Readable(forwarded) {
          Insert(FORWARDED, forwarded);
        }
      }
      assert entries == PutKnown(old(entries) - REWRITTEN, authority, clientIp);
      PutKnownForwards(old(entries), authority, clientIp);
    }

    /** Both steps, as a request to a backend goes through them. */
    method Outgoing(authority: Option<string>, clientIp: Option<string>)
      requires WellFormed(entries)
      modifies this
      ensures WellFormed(entries) && OutgoingTo(old(entries), entries, authority, clientIp)
    {
      ghost var before := entries;
      SanitizeHopByHop();
      ghost var sanitized := entries;
      ApplyForwarding(authority, clientIp);
      assert SanitizedTo(before, sanitized) && ForwardedTo(sanitized, entries, authority, clientIp);
    }
  }

  lemma StripNamesAreListed(m: Entries, names: set<string>)
    requires WellFormed(m)
    requires var tokens := if CONNECTION in m && Readable(m[CONNECTION][0]) then Split(m[CONNECTION][0], ',') else [];
             forall n :: n in names <==>
               n in HOP_BY_HOP || (ValidName(n) && exists k :: 0 <= k < |tokens| && Lower(Trim(tokens[k])) == n)
    ensures forall n :: n in names <==> n in HOP_BY_HOP || Listed(m, n)
  {
    if CONNECTION in m && Readable(m[CONNECTION][0]) {
      var tokens := Split(m[CONNECTION][0], ',');
      hide Listed, Split, Trim, Lower, ValidName, Readable;
      forall n ensures n in names <==> n in HOP_BY_HOP || Listed(m, n) {
        if ValidName(n) && Listed(m, n) {
          var k := ListedIsToken(m, n);
          assert Lower(Trim(tokens[k])) == n;
        }
        if Listed(m, n) {
          ListedIsValid(m, n);
        }
        if k :| 0 <= k < |tokens| && Lower(Trim(tokens[k])) == n {
          if ValidName(n) {
            TokenIsListed(m, n, k);
          }
        }
      }
    }
  }

  lemma ListedIsValid(m: Entries, n: string)
    requires WellFormed(m) && Listed(m, n)
    ensures ValidName(n)
  {
  }

  lemma ListedIsToken(m: Entries, n: string) returns (k: nat)
    requires WellFormed(m) && Listed(m, n)
    ensures var tokens := Split(m[CONNECTION][0], ','); k < |tokens| && Lower(Trim(tokens[k])) == n
  {
    var value := m[CONNECTION][0];
    var piece :| ListedAs(value, piece, n);
    SplitGivesPieces(value, ',', piece);
    k :| 0 <= k < |Split(value, ',')| && Split(value, ',')[k] == piece;
  }

  lemma TokenIsListed(m: Entries, n: string, k: nat)
    requires WellFormed(m) && CONNECTION in m && Readable(m[CONNECTION][0]) && ValidName(n)
    requires var tokens := Split(m[CONNECTION][0], ','); k < |tokens| && Lower(Trim(tokens[k])) == n
    ensures Listed(m, n)
  {
    var token := Split(m[CONNECTION][0], ',')[k];
    SplitGivesPieces(m[CONNECTION][0], ',', token);
    assert ListedAs(m[CONNECTION][0], token, n);
  }

  // ---------------------------------------------------------------------------------------------
  // Forwarding headers
  // ---------------------------------------------------------------------------------------------

  /** An IPv6 address is bracketed and quoted, section 6 of RFC 7239. */
  function FormatForwardedFor(ip: string): string {
    if ':' in ip then "\"[" + ip + "]\"" else ip
  }

  /** The value that a rewritten header has, if it has one. */
  function Known(name: string, authority: Option<string>, clientIp: Option<string>): Option<string> {
    if name == HOST then
      (if authority.Some? && Readable(authority.value) then authority else None)
    else if clientIp.None? then None
    else if name == X_FORWARDED_FOR then
      (if Readable(clientIp.value) then clientIp else None)
    else if name == X_FORWARDED_PROTO then Some("http")
    else
      var forwarded := "for=" + FormatForwardedFor(clientIp.value) + ";proto=http";
      if Readable(forwarded) then Some(forwarded) else None
  }

  function Put(m: Entries, name: string, value: Option<string>): Entries {
    if value.Some? then m[name := [value.value]] else m
  }

  function PutKnown(m: Entries, authority: Option<string>, clientIp: Option<string>): Entries {
    var m1 := Put(m, HOST, Known(HOST, authority, clientIp));
    var m2 := Put(m1, X_FORWARDED_FOR, Known(X_FORWARDED_FOR, authority, clientIp));
    var m3 := Put(m2, X_FORWARDED_PROTO, Known(X_FORWARDED_PROTO, authority, clientIp));
    Put(m3, FORWARDED, Known(FORWARDED, authority, clientIp))
  }

  lemma NamesDiffer()
    ensures |HOST| < |FORWARDED| < |X_FORWARDED_FOR| < |X_FORWARDED_PROTO|
  {
  }

  lemma PutFour(m: Entries, a: string, b: string, c: string, d: string,
                u: Option<string>, v: Option<string>, w: Option<string>, x: Option<string>)
    requires a != b && a != c && a != d && b != c && b != d && c != d
    ensures var r := Put(Put(Put(Put(m - {a, b, c, d}, a, u), b, v), c, w), d, x);
            && (if u.Some? then a in r && r[a] == [u.value] else a !in r)
            && (if v.Some? then b in r && r[b] == [v.value] else b !in r)
            && (if w.Some? then c in r && r[c] == [w.value] else c !in r)
            && (if x.Some? then d in r && r[d] == [x.value] else d !in r)
            && forall n :: n !in {a, b, c, d} ==> (n in r <==> n in m) && (n in r ==> r[n] == m[n])
  {
  }

  lemma PutKnownForwards(m: Entries, authority: Option<string>, clientIp: Option<string>)
    requires WellFormed(m)
    ensures var r := PutKnown(m - REWRITTEN, authority, clientIp);
            WellFormed(r) && ForwardedTo(m, r, authority, clientIp)
  {
    hide Known, Put;
    NamesDiffer();
    PutFour(m, HOST, X_FORWARDED_FOR, X_FORWARDED_PROTO, FORWARDED,
            Known(HOST, authority, clientIp), Known(X_FORWARDED_FOR, authority, clientIp),
            Known(X_FORWARDED_PROTO, authority, clientIp), Known(FORWARDED, authority, clientIp));
  }

  /** Each rewritten header has exactly the value that the proxy knows; the others stay. */
  ghost predicate ForwardedTo(m: Entries, r: Entries, authority: Option<string>, clientIp: Option<string>) {
    && (forall n :: n in REWRITTEN ==>
          if Known(n, authority, clientIp).Some?
          then n in r && r[n] == [Known(n, authority, clientIp).value]
          else n !in r)
    && (forall n :: n !in REWRITTEN ==> (n in r <==> n in m) && (n in r ==> r[n] == m[n]))
  }

  ghost predicate OutgoingTo(m: Entries, r: Entries, authority: Option<string>, clientIp: Option<string>)
    requires WellFormed(m)
  {
    exists s :: SanitizedTo(m, s) && ForwardedTo(s, r, authority, clientIp)
  }

  lemma ReadableSplits(a: string, b: string)
    ensures Readable(a + b) <==> Readable(a) && Readable(b)
  {
    if Readable(a + b) {
      assert forall i :: 0 <= i < |a| ==> a[i] == (a + b)[i];
      assert forall i :: 0 <= i < |b| ==> b[i] == (a + b)[|a| + i];
    }
  }

  /** The value of Forwarded for a client's address: bracketed and quoted when it has a colon, as an IPv6
      address does, section 6 of RFC 7239. */
  function ForwardedValue(ip: string): string {
    if exists i :: 0 <= i < |ip| && ip[i] == ':' then "for=\"[" + ip + "]\";proto=http" else "for=" + ip + ";proto=http"
  }

  lemma ReadableBetween(a: string, ip: string, b: string)
    requires Readable(a) && Readable(b)
    ensures Readable(a + ip + b) <==> Readable(ip)
  {
    hide Readable;
    ReadableSplits(a + ip, b);
    ReadableSplits(a, ip);
  }

  lemma ForwardedIsFormatted(ip: string)
    ensures "for=" + FormatForwardedFor(ip) + ";proto=http" == ForwardedValue(ip)
  {
    assert "for=" + ("\"[" + ip + "]\"") + ";proto=http" == "for=\"[" + ip + "]\";proto=http";
  }

  lemma ForwardedIsReadable(ip: string)
    ensures Readable(ForwardedValue(ip)) <==> Readable(ip)
  {
    assert Readable("for=\"[") && Readable("]\";proto=http") && Readable("for=") && Readable(";proto=http");
    hide Readable;
    ReadableBetween("for=\"[", ip, "]\";proto=http");
    ReadableBetween("for=", ip, ";proto=http");
  }

  /** What a backend reads in Forwarded: the part between `for=` and the protocol, without the quotes and
      brackets that an address with a colon has. */
  function ReadForwarded(value: string): string
    requires |value| >= 15
  {
    var node := value[4..|value| - 11];
    if |node| >= 4 && exists i :: 0 <= i < |node| && node[i] == ':' then node[2..|node| - 2] else node
  }

  /** A backend that reads Forwarded gets the client's address back. */
  lemma ForwardedIsRead(ip: string)
    ensures |ForwardedValue(ip)| >= 15 && ReadForwarded(ForwardedValue(ip)) == ip
  {
    var value := ForwardedValue(ip);
    var node := value[4..|value| - 11];
    if i :| 0 <= i < |ip| && ip[i] == ':' {
      assert node == "\"[" + ip + "]\"";
      assert node[2 + i] == ':';
      assert node[2..|node| - 2] == ip;
    } else {
      assert node == ip;
    }
  }

  lemma ForwardedToSays(m: Entries, r: Entries, authority: Option<string>, clientIp: Option<string>)
    requires ForwardedTo(m, r, authority, clientIp)
    ensures "host" in r <==> authority.Some? && Readable(authority.value)
    ensures "host" in r ==> r["host"] == [authority.value]
    ensures "x-forwarded-for" in r <==> clientIp.Some? && Readable(clientIp.value)
    ensures "x-forwarded-for" in r ==> r["x-forwarded-for"] == [clientIp.value]
    ensures "x-forwarded-proto" in r <==> clientIp.Some?
    ensures "x-forwarded-proto" in r ==> r["x-forwarded-proto"] == ["http"]
    ensures "forwarded" in r <==> clientIp.Some? && Readable(clientIp.value)
    ensures "forwarded" in r ==> r["forwarded"] == [ForwardedValue(clientIp.value)]
  {
    NamesDiffer();
    assert HOST in REWRITTEN && X_FORWARDED_FOR in REWRITTEN && X_FORWARDED_PROTO in REWRITTEN && FORWARDED in REWRITTEN;
    if clientIp.Some? {
      ForwardedIsFormatted(clientIp.value);
      ForwardedIsReadable(clientIp.value);
    }
    hide ForwardedValue, FormatForwardedFor, Readable;
  }

  /** What the backend is told about the connection: Host is its own authority, X-Forwarded-For the client's
      address, X-Forwarded-Proto always http, and Forwarded both; each is there whenever the proxy knows it
      and it can be written. */
  lemma BackendIsTold(m: Entries, r: Entries, authority: Option<string>, clientIp: Option<string>)
    requires WellFormed(m) && OutgoingTo(m, r, authority, clientIp)
    ensures "host" in r <==> authority.Some? && Readable(authority.value)
    ensures "host" in r ==> r["host"] == [authority.value]
    ensures "x-forwarded-for" in r <==> clientIp.Some? && Readable(clientIp.value)
    ensures "x-forwarded-for" in r ==> r["x-forwarded-for"] == [clientIp.value]
    ensures "x-forwarded-proto" in r <==> clientIp.Some?
    ensures "x-forwarded-proto" in r ==> r["x-forwarded-proto"] == ["http"]
    ensures "forwarded" in r <==> clientIp.Some? && Readable(clientIp.value)
    ensures "forwarded" in r ==> r["forwarded"] == [ForwardedValue(clientIp.value)]
  {
    var s :| SanitizedTo(m, s) && ForwardedTo(s, r, authority, clientIp);
    hide ForwardedTo, SanitizedTo, ForwardedValue;
    ForwardedToSays(s, r, authority, clientIp);
  }

  /** Nothing that a client says in Host, X-Forwarded-For, X-Forwarded-Proto or Forwarded reaches the
      backend: two requests that differ only there are sent on with the same headers. */
  lemma ClientCannotForge(m: Entries, r: Entries, n: Entries, s: Entries, authority: Option<string>, clientIp: Option<string>)
    requires WellFormed(m) && WellFormed(n) && m - REWRITTEN == n - REWRITTEN
    requires OutgoingTo(m, r, authority, clientIp) && OutgoingTo(n, s, authority, clientIp)
    ensures r == s
    ensures forall h :: h in REWRITTEN && h in r ==> |r[h]| == 1
  {
    var a :| SanitizedTo(m, a) && ForwardedTo(a, r, authority, clientIp);
    var b :| SanitizedTo(n, b) && ForwardedTo(b, s, authority, clientIp);
    SanitizedOutside(m, a, n, b);
    hide SanitizedTo, Known;
    forall h ensures (h in r <==> h in s) && (h in r ==> r[h] == s[h]) {
      if h !in REWRITTEN {
        assert h in a - REWRITTEN <==> h in b - REWRITTEN;
        assert h in a ==> (a - REWRITTEN)[h] == (b - REWRITTEN)[h];
      }
    }
    assert r.Keys == s.Keys;
  }

  lemma SanitizedOutside(m: Entries, a: Entries, n: Entries, b: Entries)
    requires WellFormed(m) && WellFormed(n) && m - REWRITTEN == n - REWRITTEN
    requires SanitizedTo(m, a) && SanitizedTo(n, b)
    ensures a - REWRITTEN == b - REWRITTEN
  {
    forall h | h !in REWRITTEN
      ensures (h in m <==> h in n) && (h in m ==> m[h] == n[h])
    {
      assert h in m - REWRITTEN <==> h in n - REWRITTEN;
      if h in m {
        assert (m - REWRITTEN)[h] == (n - REWRITTEN)[h];
      }
    }
    assert CONNECTION !in REWRITTEN;
    assert forall h :: Listed(m, h) <==> Listed(n, h);
  }

  /** Every other end-to-end header arrives with its values in order, and no hop-by-hop one does. */
  lemma EndToEndHeadersPass(m: Entries, r: Entries, authority: Option<string>, clientIp: Option<string>, name: string)
    requires WellFormed(m) && OutgoingTo(m, r, authority, clientIp) && name !in REWRITTEN
    ensures name in r <==>
              && name in m && !Listed(m, name)
              && name !in ["connection", "keep-alive", "proxy-authenticate", "proxy-authorization", "te", "trailer",
                           "transfer-encoding", "upgrade", "proxy-connection"]
    ensures name in r ==> r[name] == m[name]
  {
    var s :| SanitizedTo(m, s) && ForwardedTo(s, r, authority, clientIp);
  }

  /** Only the first Connection value is looked at: the others may be dropped, or be anything. */
  lemma OnlyFirstConnectionCounts(m: Entries, others: seq<string>, r: Entries)
    requires WellFormed(m) && CONNECTION in m
    ensures var n := m[CONNECTION := [m[CONNECTION][0]] + others];
            WellFormed(n) && (SanitizedTo(n, r) <==> SanitizedTo(m, r))
  {
    var n := m[CONNECTION := [m[CONNECTION][0]] + others];
    assert forall h :: Listed(n, h) <==> Listed(m, h);
    assert CONNECTION in HOP_BY_HOP;
  }

  /** Two Connection values, the second of which lists a header. */
  const TWO_CONNECTIONS: Entries := map[CONNECTION := ["close", "secret"], "secret" := ["1"]]

  lemma SecretIsNotListed()
    ensures WellFormed(TWO_CONNECTIONS) && !Listed(TWO_CONNECTIONS, "secret")
  {
    if Listed(TWO_CONNECTIONS, "secret") {
      var piece :| ListedAs("close", piece, "secret");
      TrimShortens(piece);
    }
  }

  lemma SecretIsKept()
    ensures WellFormed(TWO_CONNECTIONS) && SanitizedTo(TWO_CONNECTIONS, map["secret" := ["1"]])
  {
    SecretIsNotListed();
    NotHopByHop();
    hide Listed;
  }

  /** A header that only the second Connection value lists, a hop-by-hop one by section 7.6.1 of RFC 9110,
      is passed on. */
  lemma SecondConnectionValuePasses(authority: Option<string>, clientIp: Option<string>) returns (r: Entries)
    ensures WellFormed(TWO_CONNECTIONS) && OutgoingTo(TWO_CONNECTIONS, r, authority, clientIp)
    ensures "secret" in r && r["secret"] == ["1"]
  {
    SecretIsKept();
    SecretIsNotListed();
    NotHopByHop();
    hide SanitizedTo, OutgoingTo, Listed, WellFormed;
    r := SentOn(TWO_CONNECTIONS, map["secret" := ["1"]], authority, clientIp);
    EndToEndHeadersPass(TWO_CONNECTIONS, r, authority, clientIp, "secret");
  }

  /** What a sanitised request is sent on as. */
  lemma SentOn(m: Entries, s: Entries, authority: Option<string>, clientIp: Option<string>) returns (r: Entries)
    requires WellFormed(m) && SanitizedTo(m, s)
    ensures OutgoingTo(m, r, authority, clientIp)
  {
    r := PutKnown(s - REWRITTEN, authority, clientIp);
    PutKnownForwards(s, authority, clientIp);
  }

  lemma NotHopByHop()
    ensures "secret" !in HOP_BY_HOP && "secret" !in REWRITTEN
  {
    Lengths();
    assert |"secret"| == 6;
  }

  lemma Lengths()
    ensures forall h :: h in HOP_BY_HOP + REWRITTEN ==> |h| != 6
  {
    assert |CONNECTION| == 10 && |"keep-alive"| == 10 && |"te"| == 2 && |"trailer"| == 7 && |"upgrade"| == 7;
    assert |"proxy-authenticate"| == 18 && |"proxy-authorization"| == 19 && |"transfer-encoding"| == 17;
    assert |"proxy-connection"| == 16;
    assert |HOST| == 4 && |FORWARDED| == 9 && |X_FORWARDED_FOR| == 15 && |X_FORWARDED_PROTO| == 17;
  }

  lemma {:induction false} TrimShortens(s: string)
    ensures |Trim(s)| <= |s|
    decreases |s|
  {
    if s != "" && Blank(s[0]) {
      TrimShortens(s[1..]);
    } else if s != "" && Blank(s[|s| - 1]) {
      TrimShortens(s[..|s| - 1]);
    }
  }

  // ---------------------------------------------------------------------------------------------
  // Replaying a buffered request
  // ---------------------------------------------------------------------------------------------

  datatype Replayable = Replayable(httpMethod: string, uri: string, headers: Entries, body: seq<bv8>)

  /** The request that every attempt sends: the original with a content length of its own. */
  function ToRequest(r: Replayable): Replayable {
    r.(headers := r.headers[CONTENT_LENGTH := [Decimal(|r.body|)]])
  }

  /** The declared length, when it exceeds the limit. */
  function ContentLengthExceeds(m: Entries, limit: nat): Option<nat>
    requires WellFormed(m)
  {
    if CONTENT_LENGTH in m && Readable(m[CONTENT_LENGTH][0]) then
      var parsed := ParseU64(m[CONTENT_LENGTH][0]);
      if parsed.Some? && parsed.value > limit then parsed else None
    else None
  }

  /** The declared length is what the first value of Content-Length is a writing of, and that alone counts. */
  lemma ContentLengthMeans(m: Entries, limit: nat, n: nat)
    requires WellFormed(m)
    ensures ContentLengthExceeds(m, limit) == Some(n)
       <==> && "content-length" in m && limit < n < TWO_64
            && exists plus: bool, k: nat :: Written(m["content-length"][0], n, plus, k)
  {
    if CONTENT_LENGTH in m {
      var value := m[CONTENT_LENGTH][0];
      ParsesExactly(value, n);
      hide ParseU64, Written;
      if n < TWO_64 && exists plus: bool, k: nat :: Written(value, n, plus, k) {
        var plus: bool, k: nat :| Written(value, n, plus, k);
        WrittenIsReadable(value, n, plus, k);
      }
    }
  }

  lemma WrittenIsReadable(s: string, n: nat, plus: bool, k: nat)
    requires Written(s, n, plus, k)
    ensures Readable(s)
  {
    DecimalDigits(n);
    hide Decimal, ValueOf;
  }

  /** Whatever length the client declared, a replay declares the length of its body: the early check
      rejects it exactly when the body is longer than the limit. Replaying a replay changes nothing. */
  lemma ReplayDeclaresItsLength(r: Replayable, limit: nat)
    requires WellFormed(r.headers) && |r.body| < TWO_64
    ensures WellFormed(ToRequest(r).headers)
    ensures ContentLengthExceeds(ToRequest(r).headers, limit) == if |r.body| > limit then Some(|r.body|) else None
    ensures ToRequest(ToRequest(r)) == ToRequest(r)
    ensures ToRequest(r).headers - {CONTENT_LENGTH} == r.headers - {CONTENT_LENGTH} && ToRequest(r).body == r.body
    ensures ToRequest(r).httpMethod == r.httpMethod && ToRequest(r).uri == r.uri
  {
    hide Decimal, ParseU64, ValueOf;
    ParseInvertsDecimal(|r.body|);
    DecimalDigits(|r.body|);
  }
}
