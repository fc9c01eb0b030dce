/** backend/config/security.php: the request-security helpers. A sliding-window
    rate limiter over stored timestamp logs, string sanitising, a session CSRF
    token and an in-memory IP blocklist. */
module Security {
  import opened Common

  // ---------------------------------------------------------------------------
  // Rate limiting
  // ---------------------------------------------------------------------------

  /** At most `requests` calls per `window` seconds. */
  datatype Limit = Limit(requests: nat, window: int)

  /** The configured limits: 100 API calls per hour, 5 login attempts per 5 minutes. */
  const ConfiguredLimits: map<string, Limit> := map["api" := Limit(100, 3600), "auth" := Limit(5, 300)]

  /** The name of the stored log for one caller and one kind of limit. */
  function RateKey(kind: string, identifier: string): (key: string)
    ensures |key| == 12 + |kind| + |identifier|
    ensures key[..11] == "rate_limit_"
    ensures key[11..11 + |kind|] == kind && key[11 + |kind|] == '_'
    ensures key[|key| - |identifier|..] == identifier
  {
    "rate_limit_" + kind + "_" + identifier
  }

  /** The stored log under `key`; a caller with no log yet has an empty one. */
  function StoredLog(store: map<string, seq<int>>, key: string): seq<int> {
    if key in store then store[key] else []
  }

  /** The entries of `log` later than `windowStart`, in their order. */
  function Above(log: seq<int>, windowStart: int): (kept: seq<int>)
    ensures |kept| <= |log|
    ensures forall i :: 0 <= i < |kept| ==> kept[i] > windowStart
  {
    if log == [] then []
    else if log[|log| - 1] > windowStart then Above(log[..|log| - 1], windowStart) + [log[|log| - 1]]
    else Above(log[..|log| - 1], windowStart)
  }

  /** An entry survives the clean-up iff it is later than the window start. */
  lemma {:induction false} AboveKeeps(log: seq<int>, windowStart: int, x: int)
    ensures x in Above(log, windowStart) <==> x in log && x > windowStart
  {
    if log != [] {
      AboveKeeps(log[..|log| - 1], windowStart, x);
      assert log == log[..|log| - 1] + [log[|log| - 1]];
    }
  }

  /** Cleaning with a later window start after an earlier one is cleaning once. */
  lemma {:induction false} AboveTwice(log: seq<int>, w0: int, w1: int)
    requires w0 <= w1
    ensures Above(Above(log, w0), w1) == Above(log, w1)
  {
    if log != [] {
      var init, last := log[..|log| - 1], log[|log| - 1];
      AboveTwice(init, w0, w1);
      if last > w0 {
        assert Above(log, w0) == Above(init, w0) + [last];
        assert (Above(init, w0) + [last])[..|Above(init, w0) + [last]| - 1] == Above(init, w0);
      }
    }
  }

  /** Cleaning distributes over appending one entry. */
  lemma AboveSnoc(log: seq<int>, x: int, windowStart: int)
    ensures Above(log + [x], windowStart) ==
      Above(log, windowStart) + (if x > windowStart then [x] else [])
  {
    assert (log + [x])[..|log + [x]| - 1] == log;
  }

  /** The decision of one call and the log it would store. */
  datatype Decision = Decision(allowed: bool, log: seq<int>)

  /** One call at time `now` against the stored `log`: drop entries at or before
      `now - window`, refuse when what is left has reached the limit, otherwise
      append `now`. */
  function Step(log: seq<int>, limit: Limit, now: int): (d: Decision)
    ensures d.allowed <==> |Above(log, now - limit.window)| < limit.requests
    ensures d.allowed ==> 0 < |d.log| <= limit.requests && d.log[|d.log| - 1] == now
    ensures !d.allowed ==> d.log == log
  {
    var kept := Above(log, now - limit.window);
    if |kept| >= limit.requests then Decision(false, log)
    else Decision(true, kept + [now])
  }

  /** The stored log and the granted call times after calls at `times`, from
      no stored log. */
  datatype Trace = Trace(stored: seq<int>, granted: seq<int>)

  function Replay(limit: Limit, times: seq<int>): Trace {
    if times == [] then Trace([], [])
    else
      var before := Replay(limit, times[..|times| - 1]);
      var now := times[|times| - 1];
      var d := Step(before.stored, limit, now);
      if d.allowed then Trace(d.log, before.granted + [now]) else before
  }

  predicate NonDecreasing(times: seq<int>) {
    forall i, j :: 0 <= i <= j < |times| ==> times[i] <= times[j]
  }

  /** The relation between the stored log and the granted calls that every
      run keeps: the log is the granted calls later than the window start of the
      last granted call, and that call is no later than `now`. */
  predicate StoredMatches(limit: Limit, r: Trace, now: int) {
    && (r.granted == [] ==> r.stored == [])
    && (r.granted != [] ==>
          && r.stored == Above(r.granted, r.granted[|r.granted| - 1] - limit.window)
          && r.granted[|r.granted| - 1] <= now)
  }

  /** One more call at a time no earlier than the last keeps the relation. */
  lemma ReplayStep(limit: Limit, before: Trace, last: int, now: int)
    requires limit.window > 0 && last <= now
    requires StoredMatches(limit, before, last)
    ensures var d := Step(before.stored, limit, now);
      StoredMatches(limit, if d.allowed then Trace(d.log, before.granted + [now]) else before, now)
  {
    var d := Step(before.stored, limit, now);
    if d.allowed {
      var w := now - limit.window;
      var g := before.granted;
      var kept := Above(before.stored, w);
      assert kept == Above(g, w) by {
        if g != [] {
          AboveTwice(g, g[|g| - 1] - limit.window, w);
        }
      }
      AboveSnoc(g, now, w);
      var after := g + [now];
      assert after[|after| - 1] == now;
      assert d.log == Above(after, now - limit.window);
    }
  }

  /** What the stored log holds after a run of calls in time order. */
  lemma {:induction false} ReplayStored(limit: Limit, times: seq<int>)
    requires NonDecreasing(times) && limit.window > 0 && times != []
    ensures StoredMatches(limit, Replay(limit, times), times[|times| - 1])
  {
    var prefix := times[..|times| - 1];
    var now := times[|times| - 1];
    if prefix == [] {
      ReplayStep(limit, Trace([], []), now, now);
    } else {
      assert NonDecreasing(prefix);
      ReplayStored(limit, prefix);
      ReplayStep(limit, Replay(limit, prefix), prefix[|prefix| - 1], now);
    }
  }

  /** The sliding-window guarantee: for calls in time order, within the window
      that ends at any granted call, at most `requests` calls were granted. */
  lemma SlidingWindowBound(limit: Limit, times: seq<int>)
    requires NonDecreasing(times) && limit.window > 0
    ensures var g := Replay(limit, times).granted;
      g != [] ==> |Above(g, g[|g| - 1] - limit.window)| <= limit.requests
  {
    if times != [] {
      ReplayStored(limit, times);
      GrantedLogBound(limit, times);
    }
  }

  /** The stored log never holds more than `requests` entries once a call was granted. */
  lemma {:induction false} GrantedLogBound(limit: Limit, times: seq<int>)
    ensures var r := Replay(limit, times); r.granted != [] ==> |r.stored| <= limit.requests
  {
    if times != [] {
      GrantedLogBound(limit, times[..|times| - 1]);
    }
  }

  // ---------------------------------------------------------------------------
  // Sanitising
  // ---------------------------------------------------------------------------

  /** The characters `str_replace` removes: NUL and vertical tab. */
  predicate Control(c: char) {
    c == 0 as char || c == 11 as char
  }

  /** The characters PHP's `trim` strips by default. */
  predicate TrimChar(c: char) {
    c == ' ' || c == '\t' || c == '\n' || c == '\r' || c == 0 as char || c == 11 as char
  }

  /** `str_replace(["\0", "\x0B"], '', $s)` */
  function StripControls(s: string): (r: string)
    ensures |r| <= |s|
    ensures forall i :: 0 <= i < |r| ==> !Control(r[i])
  {
    if s == [] then []
    else if Control(s[0]) then StripControls(s[1..])
    else [s[0]] + StripControls(s[1..])
  }

  /** Removing NUL and vertical tab keeps every other character. */
  lemma {:induction false} StripControlsKeeps(s: string, c: char)
    ensures c in StripControls(s) <==> c in s && !Control(c)
  {
    if s != [] {
      StripControlsKeeps(s[1..], c);
      assert s == [s[0]] + s[1..];
    }
  }

  /** `ltrim`: the longest suffix that does not start with a trimmed character. */
  function TrimStart(s: string): (r: string)
    ensures |r| <= |s| && r == s[|s| - |r|..]
    ensures r == [] || !TrimChar(r[0])
    ensures forall i :: 0 <= i < |s| - |r| ==> TrimChar(s[i])
  {
    if s != [] && TrimChar(s[0]) then TrimStart(s[1..]) else s
  }

  /** `rtrim`: the longest prefix that does not end with a trimmed character. */
  function TrimEnd(s: string): (r: string)
    ensures |r| <= |s| && r == s[..|r|]
    ensures r == [] || !TrimChar(r[|r| - 1])
    ensures forall i :: |r| <= i < |s| ==> TrimChar(s[i])
  {
    if s != [] && TrimChar(s[|s| - 1]) then TrimEnd(s[..|s| - 1]) else s
  }

  /** `t` sits at offset `a` of `u` with only trimmed characters before and after it. */
  predicate SegmentAt(u: string, t: string, a: int) {
    && 0 <= a <= |u| - |t| && u[a..a + |t|] == t
    && (forall i :: 0 <= i < a ==> TrimChar(u[i]))
    && (forall i :: a + |t| <= i < |u| ==> TrimChar(u[i]))
  }

  /** `t` is a segment of `u` with only trimmed characters before and after it. */
  ghost predicate TrimmedFrom(u: string, t: string) {
    exists a :: SegmentAt(u, t, a)
  }

  /** `t` neither starts nor ends with a trimmed character. */
  predicate Bare(t: string) {
    t == [] || (!TrimChar(t[0]) && !TrimChar(t[|t| - 1]))
  }

  /** PHP's `trim` with its default character list: what remains once the
      trimmed characters at both ends are gone, and no more. */
  function Trim(s: string): (r: string)
    ensures TrimmedFrom(s, r) && Bare(r)
  {
    var m := TrimStart(s);
    var r := TrimEnd(m);
    SuffixPrefixSegment(s, m, r);
    r
  }

  /** A prefix `r` of a suffix `m` of `s`, each cut off by trimmed characters
      only, is a segment of `s` with trimmed characters around it. */
  lemma SuffixPrefixSegment(s: string, m: string, r: string)
    requires |m| <= |s| && m == s[|s| - |m|..]
    requires forall i :: 0 <= i < |s| - |m| ==> TrimChar(s[i])
    requires |r| <= |m| && r == m[..|r|]
    requires forall i :: |r| <= i < |m| ==> TrimChar(m[i])
    ensures SegmentAt(s, r, |s| - |m|)
  {
    var a := |s| - |m|;
    assert s[a..a + |r|] == r;
    forall i | a + |r| <= i < |s| ensures TrimChar(s[i]) {
      assert s[i] == m[i - a];
    }
  }

  /** Two bare segments with only trimmed characters around them are the same. */
  lemma SegmentsAgree(s: string, t: string, a: int, r: string, b: int)
    requires SegmentAt(s, t, a) && Bare(t)
    requires SegmentAt(s, r, b) && Bare(r)
    ensures t == r
  {
    if t != [] {
      assert t[0] == s[a] && t[|t| - 1] == s[a + |t| - 1];
    }
    if r != [] {
      assert r[0] == s[b] && r[|r| - 1] == s[b + |r| - 1];
    }
    if t != [] && r != [] {
      assert a == b;
      assert |t| == |r|;
    }
  }

  /** Trimming is determined by its specification: the only bare segment of `s`
      with just trimmed characters around it is `Trim(s)`. */
  lemma TrimUnique(s: string, t: string)
    requires TrimmedFrom(s, t) && Bare(t)
    ensures t == Trim(s)
  {
    var r := Trim(s);
    var a :| SegmentAt(s, t, a);
    var b :| SegmentAt(s, r, b);
    SegmentsAgree(s, t, a, r, b);
  }

  /** Every character that is not a trimmed one survives trimming. */
  lemma TrimKeeps(s: string, i: int)
    requires 0 <= i < |s| && !TrimChar(s[i])
    ensures s[i] in Trim(s)
  {
    var r := Trim(s);
    var a :| SegmentAt(s, r, a);
    SegmentKeeps(s, r, a, i);
  }

  /** A character that is not a trimmed one lies inside the segment. */
  lemma SegmentKeeps(s: string, r: string, a: int, i: int)
    requires SegmentAt(s, r, a)
    requires 0 <= i < |s| && !TrimChar(s[i])
    ensures s[i] in r
  {
    assert r[i - a] == s[i];
  }

  /** Trimming an already trimmed string changes nothing. */
  lemma TrimIdempotent(s: string)
    ensures Trim(Trim(s)) == Trim(s)
  {
    var t := Trim(s);
    assert SegmentAt(t, t, 0) by {
      assert t[0..0 + |t|] == t;
    }
    TrimUnique(t, t);
  }

  /** What `sanitizeString` hands to `htmlspecialchars` for input `s`: the input
      without NUL and vertical tab, trimmed at both ends and nowhere else. */
  ghost predicate EscapeInput(s: string, t: string) {
    && (forall i :: 0 <= i < |t| ==> !Control(t[i]))
    && TrimmedFrom(StripControls(s), t)
    && Bare(t)
  }

  /** The text `escape` produces from `s` as `sanitizeString` does. */
  ghost predicate SanitizedTo(escape: string -> string, s: string, out: string) {
    exists t :: EscapeInput(s, t) && out == escape(t)
  }

  /** What reaches the escaping step is the one text EscapeInput allows, and
      every character of the input that is neither stripped nor a trimmed
      character reaches it. */
  lemma SanitizeEscapes(s: string)
    ensures EscapeInput(s, Trim(StripControls(s)))
    ensures forall t :: EscapeInput(s, t) ==> t == Trim(StripControls(s))
    ensures forall i :: 0 <= i < |s| && !Control(s[i]) && !TrimChar(s[i]) ==> s[i] in Trim(StripControls(s))
  {
    var u := StripControls(s);
    TrimNoControls(u);
    forall t' | EscapeInput(s, t') ensures t' == Trim(u) {
      TrimUnique(u, t');
    }
    forall i | 0 <= i < |s| && !Control(s[i]) && !TrimChar(s[i]) ensures s[i] in Trim(u) {
      SanitizeKeeps(s, i);
    }
  }

  /** Trimming a string without NUL or vertical tab leaves none. */
  lemma TrimNoControls(u: string)
    requires forall i :: 0 <= i < |u| ==> !Control(u[i])
    ensures forall k :: 0 <= k < |Trim(u)| ==> !Control(Trim(u)[k])
  {
    var t := Trim(u);
    var a :| SegmentAt(u, t, a);
    SegmentNoControls(u, t, a);
  }

  /** A segment of a string without NUL or vertical tab has none. */
  lemma SegmentNoControls(u: string, t: string, a: int)
    requires SegmentAt(u, t, a)
    requires forall i :: 0 <= i < |u| ==> !Control(u[i])
    ensures forall k :: 0 <= k < |t| ==> !Control(t[k])
  {
    forall k | 0 <= k < |t| ensures !Control(t[k]) {
      assert t[k] == u[a + k];
    }
  }

  /** A character that is neither stripped nor trimmed reaches the escape. */
  lemma SanitizeKeeps(s: string, i: int)
    requires 0 <= i < |s| && !Control(s[i]) && !TrimChar(s[i])
    ensures s[i] in Trim(StripControls(s))
  {
    var u := StripControls(s);
    assert s[i] in s;
    StripControlsKeeps(s, s[i]);
    var j :| 0 <= j < |u| && u[j] == s[i];
    TrimKeeps(u, j);
  }

  /** `sanitizeString`: strip NUL and vertical tab, trim, then HTML-escape with
      `escape` (`htmlspecialchars` with ENT_QUOTES | ENT_HTML5). */
  function Sanitize(escape: string -> string, s: string): (r: string)
    ensures SanitizedTo(escape, s, r)
  {
    SanitizeEscapes(s);
    escape(Trim(StripControls(s)))
  }

  /** The argument of `validateInput`: a scalar or an array of strings. */
  datatype InputData = Text(s: string) | Items(items: seq<string>)

  /** The validating filters `filter_var` applies. */
  datatype FilterKind = EmailFilter | IntFilter | FloatFilter | UrlFilter

  /** What `validateInput` returns: a sanitised string, an array of sanitised
      strings, or the result of `filter_var` (None for PHP's `false`). */
  datatype Validated = Clean(s: string) | CleanItems(items: seq<string>) | Filtered(value: Option<string>)

  /** validateInput: arrays are sanitised element by element whatever the type;
      'email', 'int', 'float' and 'url' go through `filterVar`; anything else,
      including the default type 'general', is sanitised. */
  function ValidateInput(escape: string -> string, filterVar: (FilterKind, string) -> Option<string>,
                         data: InputData, kind: string := "general"): (r: Validated)
    ensures data.Items? ==> r.CleanItems? && |r.items| == |data.items|
    ensures data.Items? ==> forall i :: 0 <= i < |data.items| ==> SanitizedTo(escape, data.items[i], r.items[i])
    // only a scalar of the four validated types is filtered; everything else is sanitised
    ensures r.Filtered? <==> data.Text? && kind in {"email", "int", "float", "url"}
    ensures data.Text? && kind == "email" ==> r == Filtered(filterVar(EmailFilter, data.s))
    ensures data.Text? && kind == "int" ==> r == Filtered(filterVar(IntFilter, data.s))
    ensures data.Text? && kind == "float" ==> r == Filtered(filterVar(FloatFilter, data.s))
    ensures data.Text? && kind == "url" ==> r == Filtered(filterVar(UrlFilter, data.s))
    ensures data.Text? && kind !in {"email", "int", "float", "url"} ==> r.Clean? && SanitizedTo(escape, data.s, r.s)
  {
    match data
    case Items(items) => CleanItems(seq(|items|, i requires 0 <= i < |items| => Sanitize(escape, items[i])))
    case Text(s) =>
      if kind == "email" then Filtered(filterVar(EmailFilter, s))
      else if kind == "int" then Filtered(filterVar(IntFilter, s))
      else if kind == "float" then Filtered(filterVar(FloatFilter, s))
      else if kind == "url" then Filtered(filterVar(UrlFilter, s))
      else Clean(Sanitize(escape, s))
  }

  // ---------------------------------------------------------------------------
  // CSRF token encoding
  // ---------------------------------------------------------------------------

  newtype byte = x: int | 0 <= x < 256

  /** The lower-case hexadecimal digit of a value below 16. */
  function HexDigit(v: int): (c: char)
    requires 0 <= v < 16
    ensures IsHexDigit(c)
  {
    if v < 10 then ('0' as int + v) as char else ('a' as int + v - 10) as char
  }

  predicate IsHexDigit(c: char) {
    '0' <= c <= '9' || 'a' <= c <= 'f'
  }

  /** `bin2hex`: two lower-case hexadecimal digits per byte, high nibble first. */
  function BinToHex(bytes: seq<byte>): (h: string)
    ensures |h| == 2 * |bytes|
    ensures forall i :: 0 <= i < |h| ==> IsHexDigit(h[i])
  {
    if bytes == [] then []
    else [HexDigit(bytes[0] as int / 16), HexDigit(bytes[0] as int % 16)] + BinToHex(bytes[1..])
  }

  /** The value of one hexadecimal digit. */
  function HexValue(c: char): (v: int)
    ensures 0 <= v < 16
    ensures IsHexDigit(c) ==> HexDigit(v) == c
  {
    if '0' <= c <= '9' then c as int - '0' as int
    else if 'a' <= c <= 'f' then c as int - 'a' as int + 10
    else 0
  }

  /** `hex2bin`, the inverse of `bin2hex`. */
  function HexToBin(h: string): (bytes: seq<byte>)
    requires |h| % 2 == 0
    ensures |bytes| == |h| / 2
  {
    if h == [] then [] else [(HexValue(h[0]) * 16 + HexValue(h[1])) as byte] + HexToBin(h[2..])
  }

  /** A token can be decoded back to the random bytes it was made from. */
  lemma {:induction false} HexRoundTrip(bytes: seq<byte>)
    ensures HexToBin(BinToHex(bytes)) == bytes
  {
    if bytes != [] {
      var b := bytes[0] as int;
      var h := BinToHex(bytes);
      assert h[2..] == BinToHex(bytes[1..]);
      assert HexValue(h[0]) == b / 16 && HexValue(h[1]) == b % 16;
      HexRoundTrip(bytes[1..]);
    }
  }

  // ---------------------------------------------------------------------------
  // The handler object
  // ---------------------------------------------------------------------------

  /** SecurityHandler. `csrfToken` stands for `$_SESSION['csrf_token']` and
      `rateStore` for the JSON files in the temporary directory, one per key. */
  class SecurityHandler {
    const rateLimits: map<string, Limit>
    var blockedIPs: seq<string>
    const sessionTimeout: int
    var csrfToken: Option<string>
    var rateStore: map<string, seq<int>>

    /** A handler over an existing session token and rate-limit store. */
    constructor (session: Option<string>, files: map<string, seq<int>>)
      ensures rateLimits == ConfiguredLimits && sessionTimeout == 3600
      ensures blockedIPs == [] && csrfToken == session && rateStore == files
      // a fresh handler blocks nobody
      ensures forall ip :: !IsBlocked(ip)
    {
      rateLimits := ConfiguredLimits;
      blockedIPs := [];
      sessionTimeout := 3600;
      csrfToken := session;
      rateStore := files;
    }

    /** checkRateLimit at time `now`, for the 'api' limit unless `kind` says
        otherwise: an unknown kind is always allowed and
        touches no log; otherwise the decision and the new log are `Step`'s, and a
        refused call does not rewrite the stored log. */
    method CheckRateLimit(identifier: string, now: int, kind: string := "api") returns (allowed: bool)
      modifies this
      ensures blockedIPs == old(blockedIPs) && csrfToken == old(csrfToken)
      ensures kind !in rateLimits ==> allowed && rateStore == old(rateStore)
      ensures kind in rateLimits ==>
        var key := RateKey(kind, identifier);
        var d := Step(StoredLog(old(rateStore), key), rateLimits[kind], now);
        && allowed == d.allowed
        && rateStore == (if d.allowed then old(rateStore)[key := d.log] else old(rateStore))
      ensures allowed && kind in rateLimits ==>
        |rateStore[RateKey(kind, identifier)]| <= rateLimits[kind].requests
    {
      if kind !in rateLimits {
        allowed := true;
      } else {
        var limit := rateLimits[kind];
        var key := RateKey(kind, identifier);
        var data := StoredLog(rateStore, key);
        var windowStart := now - limit.window;
        data := Above(data, windowStart);
        if |data| >= limit.requests {
          allowed := false;
        } else {
          data := data + [now];
          rateStore := rateStore[key := data];
          allowed := true;
        }
      }
    }

    /** validateCSRF: a token is set in the session and equals `token`. */
    predicate ValidateCsrf(token: string)
      reads this
      ensures ValidateCsrf(token) ==> csrfToken.Some? && csrfToken.value == token
      ensures csrfToken == Some(token) ==> ValidateCsrf(token)
    {
      csrfToken.Some? && csrfToken.value == token
    }

    /** generateCSRF with `randomBytes` standing for `random_bytes(32)`: a token
        already in the session is kept and returned, otherwise the hex encoding of
        the bytes, 64 digits, becomes the token. Either way the returned token
        validates. */
    method GenerateCsrf(randomBytes: seq<byte>) returns (token: string)
      requires |randomBytes| == 32
      modifies this
      ensures old(csrfToken).Some? ==> token == old(csrfToken).value
      ensures old(csrfToken).None? ==> token == BinToHex(randomBytes) && HexToBin(token) == randomBytes
      ensures old(csrfToken).None? ==> |token| == 64
      ensures csrfToken == Some(token)
      ensures ValidateCsrf(token)
      ensures blockedIPs == old(blockedIPs) && rateStore == old(rateStore)
    {
      if csrfToken.None? {
        var hex := BinToHex(randomBytes);
        HexRoundTrip(randomBytes);
        csrfToken := Some(hex);
      }
      token := csrfToken.value;
    }

    /** isBlocked: `ip` is on the blocklist. */
    predicate IsBlocked(ip: string)
      reads this
      ensures IsBlocked(ip) <==> exists i :: 0 <= i < |blockedIPs| && blockedIPs[i] == ip
    {
      ip in blockedIPs
    }

    /** blockIP: append `ip`; afterwards it is blocked and the verdict on every
        other address is what it was. The duration is only logged. */
    method BlockIP(ip: string, duration: int := 3600)
      modifies this
      ensures blockedIPs == old(blockedIPs) + [ip]
      ensures IsBlocked(ip)
      ensures forall other :: other != ip ==> (IsBlocked(other) <==> old(IsBlocked(other)))
      ensures csrfToken == old(csrfToken) && rateStore == old(rateStore)
    {
      blockedIPs := blockedIPs + [ip];
    }
  }
}
