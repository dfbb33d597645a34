/**
 normalizeWebSocketUrl (packages/sdk/src/lib/websocket-url.ts): the endpoint that the realtime client connects
 to. A text that is refused yields None.
 */
module WebSocketUrl {
  import opened Wrappers
  import opened Decimal
  import opened JsString
  import opened IpAddress

  // ---------------------------------------------------------------- host names

  predicate IsLetter(c: char) { 'a' <= c <= 'z' || 'A' <= c <= 'Z' }

  predicate LabelChar(c: char) { IsLetter(c) || IsDigit(c) || c == '_' || c == '-' }

  /** `^[a-z0-9_](?:[a-z0-9_-]{0,61}[a-z0-9_])?$` in any case. */
  predicate IsLabel(s: string) {
    1 <= |s| <= 63 && s[0] != '-' && s[|s| - 1] != '-' && forall i :: 0 <= i < |s| ==> LabelChar(s[i])
  }

  /** `^(?:\d+|0x[0-9a-f]+)$` in any case: a last label that makes the host an IPv4 address or nothing. */
  predicate IsNumeric(s: string) {
    || (s != "" && AllDigits(s))
    || (|s| >= 3 && s[0] == '0' && (s[1] == 'x' || s[1] == 'X') && forall i :: 2 <= i < |s| ==> IsHex(s[i]))
  }

  function Last<T>(s: seq<T>): T
    requires s != []
  {
    s[|s| - 1]
  }

  function WithoutDot(s: string): string { if s != "" && Last(s) == '.' then s[..|s| - 1] else s }

  function NormalizeHostname(value: string): Option<string> {
    if |value| == 0 || |value| > 253 then None
    else
      var candidate := WithoutDot(value);
      var labels := Split(candidate, '.');
      if IsNumeric(Last(labels)) then (if IsIpv4(candidate) then Some(candidate) else None)
      else if exists i :: 0 <= i < |labels| && !IsLabel(labels[i]) then None
      else Some(Lower(Join(labels, ".")) + (if Last(value) == '.' then "." else ""))
  }

  // ---------------------------------------------------------------- authority

  datatype Scheme = Ws | Wss

  function SchemeText(s: Scheme): string { if s == Ws then "ws" else "wss" }

  function DefaultPort(s: Scheme): nat { if s == Ws then 80 else 443 }

  datatype Host = Bracketed(address: string) | Plain(name: string)

  function HostText(h: Host): string {
    match h
    case Bracketed(a) => "[" + a + "]"
    case Plain(n) => n
  }

  predicate Unsafe(c: char) { c <= ' ' || c == 127 as char || c == '\\' }

  predicate HasUnsafe(s: string) { exists i :: 0 <= i < |s| && Unsafe(s[i]) }

  /** The host and the port as written, if the authority has that form. */
  function SplitAuthority(value: string): Option<(Host, Option<string>)> {
    if value != "" && value[0] == '[' then
      var close := IndexOf(value, ']');
      if close < 0 then None
      else
        var address, suffix := value[1..close], value[close + 1..];
        if suffix == "" then Some((Bracketed(address), None))
        else if suffix[0] != ':' then None
        else Some((Bracketed(address), Some(suffix[1..])))
    else if '[' in value || ']' in value then None
    else
      var first, last := IndexOf(value, ':'), LastIndexOf(value, ':');
      if first != last then None
      else if first < 0 then Some((Plain(value), None))
      else Some((Plain(value[..first]), Some(value[first + 1..])))
  }

  function NormalizeHost(h: Host): Option<Host> {
    match h
    case Bracketed(a) => if IsIpv6(a) then Some(Bracketed(Lower(a))) else None
    case Plain(n) =>
      match NormalizeHostname(n)
      case None => None
      case Some(name) => Some(Plain(name))
  }

  /** `^\d{1,5}$`, and at most 65535. */
  predicate IsPort(s: string) { 1 <= |s| <= 5 && AllDigits(s) && Number(s) <= 65535 }

  /** The port as it is printed: nothing for the scheme's default. */
  function PortText(port: Option<string>, scheme: Scheme): string
    requires port.Some? ==> IsPort(port.value)
  {
    if port == None || Number(port.value) == DefaultPort(scheme) then "" else ":" + Digits(Number(port.value))
  }

  function NormalizeAuthority(value: string, scheme: Scheme): Option<string> {
    if '@' in value || HasUnsafe(value) then None
    else
      match SplitAuthority(value)
      case None => None
      case Some((host, port)) =>
        var normal := NormalizeHost(host);
        if normal == None || (port.Some? && !IsPort(port.value)) then None
        else Some(HostText(normal.value) + PortText(port, scheme))
  }

  // ---------------------------------------------------------------- path

  function DropSlashes(s: string): (r: string)
    ensures |r| <= |s| && r == s[|s| - |r|..]
    ensures r != "" ==> r[0] != '/'
  {
    if s != "" && s[0] == '/' then DropSlashes(s[1..]) else s
  }

  /** `replace(/^\/+/, '/')`; also what `replace(/^\/{2,}/, '/')` does, as one slash stays one. */
  function OneSlash(s: string): string { if s != "" && s[0] == '/' then "/" + DropSlashes(s) else s }

  /** `replace(/\/+$/, '')`. */
  function TrimSlashes(s: string): (r: string)
    ensures |r| <= |s| && r == s[..|r|]
    ensures r != "" ==> Last(r) != '/'
  {
    if s != "" && Last(s) == '/' then TrimSlashes(s[..|s| - 1]) else s
  }

  /** `replace(/%2e/gi, '.')`. */
  function DecodeDots(s: string): string {
    if s == "" then ""
    else if |s| >= 3 && s[0] == '%' && s[1] == '2' && (s[2] == 'e' || s[2] == 'E') then "." + DecodeDots(s[3..])
    else [s[0]] + DecodeDots(s[1..])
  }

  predicate IsDot(segment: string) { DecodeDots(segment) == "." || DecodeDots(segment) == ".." }

  predicate NoDots(path: string) { forall i :: 0 <= i < |Split(path, '/')| ==> !IsDot(Split(path, '/')[i]) }

  const ENDPOINT := "/v1/graphql"

  predicate EndsWith(s: string, suffix: string) { |suffix| <= |s| && s[|s| - |suffix|..] == suffix }

  function NormalizePath(value: string): Option<string> {
    if HasUnsafe(value) then None
    else
      var path := OneSlash(value);
      if !NoDots(path) then None
      else
        var trimmed := TrimSlashes(path);
        Some(if EndsWith(trimmed, ENDPOINT) then trimmed else OneSlash(trimmed + ENDPOINT))
  }

  // ---------------------------------------------------------------- the whole URL

  /** Where an authority ends: at a slash, a question mark or a hash. */
  function AuthorityEnd(s: string): (n: nat)
    ensures n <= |s|
    ensures n < |s| ==> s[n] == '/' || s[n] == '?' || s[n] == '#'
    ensures forall i :: 0 <= i < n ==> s[i] != '/' && s[i] != '?' && s[i] != '#'
  {
    if s == "" || s[0] == '/' || s[0] == '?' || s[0] == '#' then 0 else 1 + AuthorityEnd(s[1..])
  }

  /** `^(ws|wss):\/\/([^/?#]+)(\/[^?#]*)?$` in any case: scheme, authority, path. */
  function SplitUrl(s: string): Option<(Scheme, string, string)> {
    if |s| >= 5 && Lower(s[..5]) == "ws://" then SplitRest(Ws, s[5..])
    else if |s| >= 6 && Lower(s[..6]) == "wss://" then SplitRest(Wss, s[6..])
    else None
  }

  function SplitRest(scheme: Scheme, s: string): Option<(Scheme, string, string)> {
    var n := AuthorityEnd(s);
    if n == 0 || (n < |s| && s[n] != '/') || '?' in s[n..] || '#' in s[n..] then None
    else Some((scheme, s[..n], s[n..]))
  }

  function NormalizeWebSocketUrl(value: string): Option<string> {
    match SplitUrl(Trim(value))
    case None => None
    case Some((scheme, authority, path)) =>
      match NormalizeAuthority(authority, scheme)
      case None => None
      case Some(a) =>
        match NormalizePath(path)
        case None => None
        case Some(p) => Some(SchemeText(scheme) + "://" + a + p)
  }

  // ---------------------------------------------------------------- host names, again

  lemma LowerLabel(s: string)
    ensures IsLabel(Lower(s)) <==> IsLabel(s)
  {
    forall i | 0 <= i < |s| ensures LabelChar(Lower(s)[i]) <==> LabelChar(s[i]) { }
    if IsLabel(Lower(s)) { assert forall i :: 0 <= i < |s| ==> LabelChar(Lower(s)[i]); }
  }

  lemma LowerNumeric(s: string)
    ensures IsNumeric(Lower(s)) <==> IsNumeric(s)
  {
    forall i | 0 <= i < |s| ensures IsDigit(Lower(s)[i]) <==> IsDigit(s[i]) { }
    forall i | 0 <= i < |s| ensures IsHex(Lower(s)[i]) <==> IsHex(s[i]) { }
    if AllDigits(Lower(s)) { assert forall i :: 0 <= i < |s| ==> IsDigit(Lower(s)[i]); }
    if AllDigits(s) { assert forall i :: 0 <= i < |s| ==> IsDigit(Lower(s)[i]); }
    if |s| >= 3 && (forall i :: 2 <= i < |s| ==> IsHex(Lower(s)[i])) {
      assert forall i :: 2 <= i < |s| ==> IsHex(Lower(s)[i]);
    }
  }

  lemma LowerTwice(s: string)
    ensures Lower(Lower(s)) == Lower(s)
  {
  }

  predicate IsName(candidate: string) {
    var labels := Split(candidate, '.');
    !IsNumeric(Last(labels)) && forall i :: 0 <= i < |labels| ==> IsLabel(labels[i])
  }

  lemma NameLowers(c: string)
    requires IsName(c)
    ensures IsName(Lower(c))
  {
    var labels := Split(c, '.');
    SplitLower(c, '.');
    LowerNumeric(Last(labels));
    forall i | 0 <= i < |labels| ensures IsLabel(LowerAll(labels)[i]) { LowerLabel(labels[i]); }
  }

  lemma NameEnds(c: string)
    requires IsName(c)
    ensures c != "" && Last(c) != '.' && forall i :: 0 <= i < |c| ==> HostChar(c[i])
  {
    LabelsCover(c);
    SplitEnds(c, '.');
    var final := Last(Split(c, '.'));
    assert IsLabel(final);
    assert Last(c) == Last(final);
  }

  lemma NameIsStable(c: string)
    requires IsName(c)
    ensures IsName(Lower(c)) && Lower(Join(Split(Lower(c), '.'), ".")) == Lower(c) == Lower(Join(Split(c, '.'), "."))
    ensures c != "" && Last(c) != '.' && forall i :: 0 <= i < |c| ==> HostChar(c[i])
  {
    NameLowers(c);
    NameEnds(c);
    JoinSplit(c, '.');
    JoinSplit(Lower(c), '.');
    LowerTwice(c);
  }

  lemma Ipv4IsStable(c: string)
    requires IsIpv4(c)
    ensures c != "" && Last(c) != '.' && forall i :: 0 <= i < |c| ==> HostChar(c[i])
  {
    Ipv4Chars(c);
    SplitEnds(c, '.');
    assert Octet(Last(Split(c, '.')));
    assert Last(c) == Last(Last(Split(c, '.')));
  }

  lemma NormalizesName(c: string, dot: string)
    requires IsName(c) && (dot == "" || dot == ".") && |c + dot| <= 253
    ensures NormalizeHostname(c + dot) == Some(Lower(c) + dot)
  {
    NameIsStable(c);
    assert WithoutDot(c + dot) == c;
  }

  predicate HostChar(c: char) { LabelChar(c) || c == '.' }

  /** The same name in lower case; an IPv4 address loses a dot at its end. */
  predicate SameName(written: string, normal: string) {
    normal == Lower(written) || (IsIpv4(normal) && normal == WithoutDot(written))
  }

  ghost predicate HostnameStable(value: string)
    requires NormalizeHostname(value).Some?
  {
    var name := NormalizeHostname(value).value;
    && name != "" && NormalizeHostname(name) == Some(name) && SameName(value, name)
    && forall i :: 0 <= i < |name| ==> HostChar(name[i])
  }

  lemma Ipv4HostIsStable(value: string)
    requires NormalizeHostname(value).Some? && IsNumeric(Last(Split(WithoutDot(value), '.')))
    ensures HostnameStable(value)
  {
    Ipv4IsStable(WithoutDot(value));
  }

  function FinalDot(value: string): string { if value != "" && Last(value) == '.' then "." else "" }

  lemma NamedHost(value: string)
    requires NormalizeHostname(value).Some? && !IsNumeric(Last(Split(WithoutDot(value), '.')))
    ensures IsName(WithoutDot(value)) && value == WithoutDot(value) + FinalDot(value) && |value| <= 253
    ensures NormalizeHostname(value) == Some(Lower(WithoutDot(value)) + FinalDot(value))
  {
    JoinSplit(WithoutDot(value), '.');
  }

  lemma NamedHostIsStable(value: string)
    requires NormalizeHostname(value).Some? && !IsNumeric(Last(Split(WithoutDot(value), '.')))
    ensures HostnameStable(value)
  {
    NamedHost(value);
    LowerDotted(WithoutDot(value), FinalDot(value));
    NormalName(WithoutDot(value), FinalDot(value));
  }

  /** A normalized host name holds label characters and dots only, and is normalized to itself. */
  lemma HostnameIsStable(value: string)
    requires NormalizeHostname(value).Some?
    ensures var name := NormalizeHostname(value).value;
            && name != "" && NormalizeHostname(name) == Some(name) && SameName(value, name)
            && forall i :: 0 <= i < |name| ==> HostChar(name[i])
  {
    if IsNumeric(Last(Split(WithoutDot(value), '.'))) { Ipv4HostIsStable(value); } else { NamedHostIsStable(value); }
  }

  lemma LowerDotted(c: string, dot: string)
    requires dot == "" || dot == "."
    ensures Lower(c + dot) == Lower(c) + dot
  {
    assert Lower(c + dot) == Lower(c) + Lower(dot);
  }

  lemma NormalName(c: string, dot: string)
    requires IsName(c) && (dot == "" || dot == ".") && |c + dot| <= 253
    ensures var name := Lower(c) + dot;
            && name != "" && NormalizeHostname(name) == Some(name)
            && forall i :: 0 <= i < |name| ==> HostChar(name[i])
  {
    NameLowers(c);
    NameEnds(Lower(c));
    LowerTwice(c);
    NormalizesName(Lower(c), dot);
  }

  lemma LabelsCover(s: string)
    requires forall i :: 0 <= i < |Split(s, '.')| ==> IsLabel(Split(s, '.')[i])
    ensures s != "" && forall i :: 0 <= i < |s| ==> HostChar(s[i])
  {
    forall i | 0 <= i < |s| ensures HostChar(s[i]) { SplitCovers(s, '.', i); }
    assert Split("", '.')[0] == "";
  }

  // ---------------------------------------------------------------- authority, again

  lemma NumberFits(n: nat)
    requires n <= 65535
    ensures IsPort(Digits(n)) && Number(Digits(n)) == n
  {
    NumberOfDigits(n);
    DigitsAreDigits(n);
    assert |Digits(n)| <= 5 by {
      assert n / 10 < 6554 && n / 10 / 10 < 656 && n / 10 / 10 / 10 < 66 && n / 10 / 10 / 10 / 10 < 7;
      if n >= 10 { DigitsLength(n / 10, 4); }
    }
  }

  lemma {:induction false} DigitsLength(n: nat, k: nat)
    requires k >= 1 && n < Power(k)
    ensures |Digits(n)| <= k
  {
    if n >= 10 { DigitsLength(n / 10, k - 1); }
  }

  function Power(k: nat): nat { if k == 0 then 1 else 10 * Power(k - 1) }

  /** A host as normalization leaves it: it can be told again from what surrounds it. */
  predicate Settled(h: Host) {
    && NormalizeHost(h) == Some(h)
    && match h
       case Bracketed(a) => forall i :: 0 <= i < |a| ==> AddressChar(a[i])
       case Plain(n) => n != "" && forall i :: 0 <= i < |n| ==> HostChar(n[i])
  }

  lemma HostSettles(h: Host)
    requires NormalizeHost(h).Some?
    ensures Settled(NormalizeHost(h).value)
  {
    match h {
      case Bracketed(a) =>
        LowerIpv6(a);
        LowerTwice(a);
        Ipv6Chars(Lower(a));
      case Plain(n) => HostnameIsStable(n);
    }
  }

  /** A port in the text of an authority. */
  function Suffix(port: Option<string>): string { if port.Some? then ":" + port.value else "" }

  lemma SplitsBracketed(a: string, port: Option<string>)
    requires forall i :: 0 <= i < |a| ==> a[i] != ']'
    ensures SplitAuthority(HostText(Bracketed(a)) + Suffix(port)) == Some((Bracketed(a), port))
  {
    var value, suffix := "[" + a + "]" + Suffix(port), Suffix(port);
    ClosesAt(a, suffix);
    assert value[1..|a| + 1] == a && value[|a| + 2..] == suffix;
    if port.Some? { assert suffix[1..] == port.value; }
  }

  lemma ClosesAt(a: string, suffix: string)
    requires forall i :: 0 <= i < |a| ==> a[i] != ']'
    ensures IndexOf("[" + a + "]" + suffix, ']') == |a| + 1
  {
    assert "[" + a + "]" + suffix == ("[" + a) + ([']'] + suffix);
    IndexOfConcat("[" + a, ']', suffix);
  }

  lemma SplitsPlain(n: string, port: Option<string>)
    requires n != "" && forall i :: 0 <= i < |n| ==> HostChar(n[i])
    requires port.Some? ==> AllDigits(port.value)
    ensures SplitAuthority(n + Suffix(port)) == Some((Plain(n), port))
  {
    if port.Some? {
      SplitsPort(n, port.value);
    } else {
      assert n + Suffix(port) == n;
      IndexOfNone(n, ':');
      assert forall i :: 0 <= i < |n| ==> n[i] != '[' && n[i] != ']';
    }
  }

  lemma SplitsPort(n: string, port: string)
    requires n != "" && (forall i :: 0 <= i < |n| ==> HostChar(n[i])) && AllDigits(port)
    ensures SplitAuthority(n + (":" + port)) == Some((Plain(n), Some(port)))
  {
    var value := n + (":" + port);
    ColonAt(n, port);
    NoBrackets(n, port);
    assert value[..|n|] == n && value[|n| + 1..] == port;
  }

  lemma NoBrackets(n: string, port: string)
    requires (forall i :: 0 <= i < |n| ==> HostChar(n[i])) && AllDigits(port)
    ensures var value := n + (":" + port);
            '[' !in value && ']' !in value
  {
    var value := n + (":" + port);
    forall k | 0 <= k < |value| ensures value[k] != '[' && value[k] != ']' {
      if k > |n| { assert IsDigit(port[k - |n| - 1]); }
    }
  }

  lemma ColonAt(n: string, port: string)
    requires (forall i :: 0 <= i < |n| ==> HostChar(n[i])) && AllDigits(port)
    ensures IndexOf(n + (":" + port), ':') == LastIndexOf(n + (":" + port), ':') == |n|
  {
    assert ":" == [':'];
    IndexOfConcat(n, ':', port);
    LastIndexOfConcat(n, ':', port);
  }

  predicate AuthorityChar(c: char) { HostChar(c) || c == ':' || c == '[' || c == ']' }

  lemma HostTextChars(h: Host)
    requires Settled(h)
    ensures HostText(h) != "" && forall i :: 0 <= i < |HostText(h)| ==> AuthorityChar(HostText(h)[i])
  {
  }

  /** The port after normalization. */
  function NormalPort(port: Option<string>, scheme: Scheme): Option<string>
    requires port.Some? ==> IsPort(port.value)
  {
    if port == None || Number(port.value) == DefaultPort(scheme) then None else Some(Digits(Number(port.value)))
  }

  lemma PortSettles(port: Option<string>, scheme: Scheme)
    requires port.Some? ==> IsPort(port.value)
    ensures var p := NormalPort(port, scheme);
            && PortText(port, scheme) == Suffix(p)
            && (p.Some? ==> IsPort(p.value))
            && NormalPort(p, scheme) == p
  {
    if port.Some? { NumberFits(Number(port.value)); }
  }

  /** The port that a client connects to. */
  function EffectivePort(port: Option<string>, scheme: Scheme): nat
    requires port.Some? ==> IsPort(port.value)
  {
    if port == None then DefaultPort(scheme) else Number(port.value)
  }

  lemma SplitsSettled(h: Host, port: Option<string>)
    requires Settled(h) && (port.Some? ==> IsPort(port.value))
    ensures SplitAuthority(HostText(h) + Suffix(port)) == Some((h, port))
  {
    match h {
      case Bracketed(a) => SplitsBracketed(a, port);
      case Plain(n) => SplitsPlain(n, port);
    }
  }

  lemma SettledChars(h: Host, port: Option<string>)
    requires Settled(h) && (port.Some? ==> IsPort(port.value))
    ensures var s := HostText(h) + Suffix(port);
            s != "" && forall i :: 0 <= i < |s| ==> AuthorityChar(s[i])
  {
    HostTextChars(h);
    assert forall i :: 0 <= i < |Suffix(port)| ==> AuthorityChar(Suffix(port)[i]);
  }

  lemma AuthorityCharsAreSafe(s: string)
    requires forall i :: 0 <= i < |s| ==> AuthorityChar(s[i])
    ensures '@' !in s && !HasUnsafe(s)
  {
  }

  lemma SettledAuthority(h: Host, port: Option<string>, scheme: Scheme)
    requires Settled(h) && (port.Some? ==> IsPort(port.value)) && NormalPort(port, scheme) == port
    ensures NormalizeAuthority(HostText(h) + Suffix(port), scheme) == Some(HostText(h) + Suffix(port))
  {
    SplitsSettled(h, port);
    SettledChars(h, port);
    AuthorityCharsAreSafe(HostText(h) + Suffix(port));
    PortSettles(port, scheme);
  }

  lemma NormalPortMeansTheSame(port: Option<string>, scheme: Scheme)
    requires port.Some? ==> IsPort(port.value)
    ensures var p := NormalPort(port, scheme);
            (p.Some? ==> IsPort(p.value)) && EffectivePort(p, scheme) == EffectivePort(port, scheme)
  {
    if port.Some? { NumberFits(Number(port.value)); }
  }

  /** A normalized authority is the text of the normalized host and of a port that means the same; it splits
      into these again, and is normalized to itself. */
  lemma AuthorityIsStable(value: string, scheme: Scheme)
    requires NormalizeAuthority(value, scheme).Some?
    ensures var out := NormalizeAuthority(value, scheme).value;
            var (host, port) := SplitAuthority(value).value;
            && NormalizeAuthority(out, scheme) == Some(out)
            && SplitAuthority(out) == Some((NormalizeHost(host).value, NormalPort(port, scheme)))
            && out != "" && forall i :: 0 <= i < |out| ==> AuthorityChar(out[i])
  {
    var (host, port) := SplitAuthority(value).value;
    var h, p := NormalizeHost(host).value, NormalPort(port, scheme);
    HostSettles(host);
    PortSettles(port, scheme);
    assert NormalizeAuthority(value, scheme).value == HostText(h) + Suffix(p);
    SettledAuthority(h, p, scheme);
    SplitsSettled(h, p);
    SettledChars(h, p);
  }

  // ---------------------------------------------------------------- path, again

  lemma {:induction false} NoDotsWithSlash(p: string)
    ensures NoDots(p + "/") <==> NoDots(p)
  {
    SplitAppend(p, "/", '/');
    assert "/"[1..] == "";
    assert Split("", '/') == [""];
    var parts := Split(p, '/');
    assert Split(p + "/", '/') == parts + [""];
    assert !IsDot("");
    if NoDots(p + "/") {
      forall i | 0 <= i < |parts| ensures !IsDot(parts[i]) { assert (parts + [""])[i] == parts[i]; }
    }
  }

  lemma {:induction false} TrimKeepsNoDots(p: string)
    requires NoDots(p)
    ensures NoDots(TrimSlashes(p))
  {
    if p != "" && Last(p) == '/' {
      assert p == p[..|p| - 1] + "/";
      NoDotsWithSlash(p[..|p| - 1]);
      TrimKeepsNoDots(p[..|p| - 1]);
    }
  }

  lemma TwoParts(a: string, b: string)
    requires '/' !in a && '/' !in b
    ensures Split(a + ("/" + b), '/') == [a, b]
  {
    SplitWhole(b, '/');
    SplitConcat(a, "/" + b, '/');
    assert ("/" + b)[1..] == b;
  }

  lemma EndpointParts()
    ensures Split("v1/graphql", '/') == ["v1", "graphql"]
  {
    TwoParts("v1", "graphql");
    assert "v1/graphql" == "v1" + ("/" + "graphql");
  }

  lemma FirstStays(s: string)
    requires s != "" && s[0] != '%'
    ensures DecodeDots(s) != "" && DecodeDots(s)[0] == s[0]
  {
  }

  lemma EndpointPartsAreNoDots()
    ensures !IsDot("v1") && !IsDot("graphql")
  {
    FirstStays("v1");
    FirstStays("graphql");
  }

  lemma EndpointHasNoDots(t: string)
    requires NoDots(t)
    ensures NoDots(t + ENDPOINT)
  {
    EndpointSegments(t);
    EndpointPartsAreNoDots();
  }

  lemma EndpointSegments(t: string)
    ensures Split(t + ENDPOINT, '/') == Split(t, '/') + ["v1", "graphql"]
  {
    SplitAppend(t, ENDPOINT, '/');
    assert ENDPOINT[1..] == "v1/graphql";
    EndpointParts();
  }

  /** A path that begins with one slash, not two. */
  predicate OneSlashed(s: string) { s != "" && s[0] == '/' && (|s| > 1 ==> s[1] != '/') }

  lemma OneSlashStays(s: string)
    requires OneSlashed(s)
    ensures OneSlash(s) == s
  {
    assert s == "/" + s[1..];
    assert DropSlashes(s) == s[1..];
  }

  lemma TrimStays(s: string)
    requires EndsWith(s, ENDPOINT)
    ensures TrimSlashes(s) == s
  {
    assert Last(s) == s[|s| - |ENDPOINT|..][10];
  }

  /** A normalized path ends in the endpoint, is made of the characters of the path and the endpoint, and is
      normalized to itself. */
  lemma PathIsStable(value: string)
    requires value == "" || value[0] == '/'
    requires NormalizePath(value).Some?
    ensures var out := NormalizePath(value).value;
            && NormalizePath(out) == Some(out)
            && OneSlashed(out) && EndsWith(out, ENDPOINT)
            && forall c <- out :: c in value || c in ENDPOINT
  {
    var path := OneSlash(value);
    var trimmed := TrimSlashes(path);
    TrimKeepsNoDots(path);
    if trimmed != "" { assert trimmed[0] == path[0]; }
    var out := if EndsWith(trimmed, ENDPOINT) then trimmed else trimmed + ENDPOINT;
    TrimmedIsOneSlashed(value);
    EndpointHasNoDots(trimmed);
    OneSlashStays(out);
    assert EndsWith(out, ENDPOINT);
    TrimStays(out);
    PathChars(value, out);
  }

  lemma TrimmedIsOneSlashed(value: string)
    requires value == "" || value[0] == '/'
    ensures var t := TrimSlashes(OneSlash(value));
            (t == "" || (OneSlashed(t) && |t| > 1)) && OneSlashed(t + ENDPOINT)
  {
    var path := OneSlash(value);
    var t := TrimSlashes(path);
    if t != "" {
      assert t[0] == path[0];
      if |t| > 1 { assert t[1] == path[1] == DropSlashes(value)[0]; }
    }
  }

  lemma PathChars(value: string, out: string)
    requires value == "" || value[0] == '/'
    requires var t := TrimSlashes(OneSlash(value)); out == t || out == t + ENDPOINT
    ensures forall c <- out :: c in value || c in ENDPOINT
    ensures !HasUnsafe(value) ==> !HasUnsafe(out)
  {
    var path := OneSlash(value);
    var t := TrimSlashes(path);
    forall c | c in t ensures c in value {
      var i :| 0 <= i < |t| && t[i] == c;
      assert c == path[i];
      if i > 0 { assert path[i] == DropSlashes(value)[i - 1]; }
    }
    assert forall c <- out :: c in t || c in ENDPOINT;
    SafeChars(value, out);
  }

  lemma SafeChars(value: string, out: string)
    requires forall c <- out :: c in value || c in ENDPOINT
    ensures !HasUnsafe(value) ==> !HasUnsafe(out)
  {
    assert forall j :: 0 <= j < |ENDPOINT| ==> !Unsafe(ENDPOINT[j]);
    if HasUnsafe(out) {
      var i :| 0 <= i < |out| && Unsafe(out[i]);
      var c := out[i];
      assert c in out;
    }
  }

  // ---------------------------------------------------------------- the whole URL, again

  lemma AuthorityEndsAt(a: string, path: string)
    requires forall i :: 0 <= i < |a| ==> AuthorityChar(a[i])
    requires path != "" && path[0] == '/'
    ensures AuthorityEnd(a + path) == |a|
  {
    var s := a + path;
    forall i | 0 <= i < |a| ensures AuthorityChar(s[i]) { assert s[i] == a[i]; }
    assert s[|a|] == '/';
  }

  lemma LowerAt(s: string, i: nat)
    requires i < |s|
    ensures Lower(s)[i] == LowerChar(s[i])
  {
  }

  lemma SecureIsTold(rest: string)
    ensures var s := "wss://" + rest;
            Lower(s[..5]) != "ws://" && Lower(s[..6]) == "wss://"
  {
    var s := "wss://" + rest;
    assert s[..6] == "wss://";
    LowerAt(s[..5], 2);
    assert s[..6][2] == s[2] == s[..5][2];
    assert "wss://"[2] == 's' && "ws://"[2] == ':';
  }

  lemma PlainIsTold(rest: string)
    ensures var s := "ws://" + rest;
            Lower(s[..5]) == "ws://" && s[5..] == rest
  {
    var s := "ws://" + rest;
    assert s[..5] == "ws://" && Lower("ws://") == "ws://";
  }

  lemma RestSplits(a: string, path: string)
    requires forall i :: 0 <= i < |a| ==> AuthorityChar(a[i])
    requires path != "" && path[0] == '/'
    ensures var rest := a + path; rest[..AuthorityEnd(rest)] == a && rest[AuthorityEnd(rest)..] == path
  {
    AuthorityEndsAt(a, path);
  }

  lemma SplitsWs(rest: string)
    ensures SplitUrl("ws://" + rest) == SplitRest(Ws, rest)
  {
    PlainIsTold(rest);
  }

  lemma SplitsWss(rest: string)
    ensures SplitUrl("wss://" + rest) == SplitRest(Wss, rest)
  {
    SecureIsTold(rest);
    assert ("wss://" + rest)[6..] == rest;
  }

  lemma SchemeFirst(scheme: Scheme, a: string, path: string)
    ensures SchemeText(scheme) + "://" + a + path == (if scheme == Ws then "ws://" else "wss://") + (a + path)
  {
  }

  lemma SplitsAgain(scheme: Scheme, a: string, path: string)
    requires a != "" && forall i :: 0 <= i < |a| ==> AuthorityChar(a[i])
    requires path != "" && path[0] == '/' && '?' !in path && '#' !in path
    ensures SplitUrl(SchemeText(scheme) + "://" + a + path) == Some((scheme, a, path))
  {
    var rest := a + path;
    assert SplitRest(scheme, rest) == Some((scheme, a, path)) by { RestSplits(a, path); }
    SchemeFirst(scheme, a, path);
    if scheme == Ws { SplitsWs(rest); } else { SplitsWss(rest); }
  }

  lemma SplitPath(s: string)
    requires SplitUrl(s).Some?
    ensures var path := SplitUrl(s).value.2;
            (path == "" || path[0] == '/') && '?' !in path && '#' !in path
  {
  }

  lemma UrlIsTrimmed(scheme: Scheme, a: string, path: string)
    requires EndsWith(path, ENDPOINT)
    ensures Trim(SchemeText(scheme) + "://" + a + path) == SchemeText(scheme) + "://" + a + path
  {
    var s := SchemeText(scheme) + "://" + a + path;
    assert Last(s) == path[|path| - 1] == path[|path| - |ENDPOINT|..][10] == 'l';
    assert s[0] == 'w';
    TrimSurrounded("", s, "");
    assert "" + s + "" == s;
  }

  function UrlText(scheme: Scheme, authority: string, path: string): string {
    SchemeText(scheme) + "://" + authority + path
  }

  lemma NormalPath(path: string, p: string)
    requires (path == "" || path[0] == '/') && '?' !in path && '#' !in path
    requires NormalizePath(path) == Some(p)
    ensures NormalizePath(p) == Some(p) && p != "" && p[0] == '/' && '?' !in p && '#' !in p && EndsWith(p, ENDPOINT)
  {
    PathIsStable(path);
    NoQueryInEndpoint();
  }

  lemma NoQueryInEndpoint()
    ensures '?' !in ENDPOINT && '#' !in ENDPOINT
  {
    assert forall i :: 0 <= i < |ENDPOINT| ==> ENDPOINT[i] != '?' && ENDPOINT[i] != '#';
  }

  lemma NormalAuthority(authority: string, scheme: Scheme, a: string)
    requires NormalizeAuthority(authority, scheme) == Some(a)
    ensures NormalizeAuthority(a, scheme) == Some(a) && a != "" && forall i :: 0 <= i < |a| ==> AuthorityChar(a[i])
  {
    AuthorityIsStable(authority, scheme);
  }

  lemma NormalPartsAreStable(scheme: Scheme, authority: string, path: string, a: string, p: string)
    requires NormalizeAuthority(authority, scheme) == Some(a) && NormalizePath(path) == Some(p)
    requires (path == "" || path[0] == '/') && '?' !in path && '#' !in path
    ensures Trim(UrlText(scheme, a, p)) == UrlText(scheme, a, p)
    ensures SplitUrl(UrlText(scheme, a, p)) == Some((scheme, a, p))
    ensures NormalizeAuthority(a, scheme) == Some(a) && NormalizePath(p) == Some(p)
  {
    NormalAuthority(authority, scheme, a);
    NormalPath(path, p);
    SplitsAgain(scheme, a, p);
    UrlIsTrimmed(scheme, a, p);
  }

  /** Normalization is idempotent: what it accepts, it accepts again, unchanged. */
  lemma NormalizationIsIdempotent(value: string)
    ensures var r := NormalizeWebSocketUrl(value);
            r.Some? ==> NormalizeWebSocketUrl(r.value) == r
  {
    if NormalizeWebSocketUrl(value).Some? {
      var (scheme, authority, path) := SplitUrl(Trim(value)).value;
      SplitPath(Trim(value));
      NormalPartsAreStable(scheme, authority, path, NormalizeAuthority(authority, scheme).value,
                           NormalizePath(path).value);
    }
  }

  predicate SameHost(written: Host, normal: Host) {
    match (written, normal)
    case (Bracketed(a), Bracketed(b)) => b == Lower(a) && IsIpv6(b)
    case (Plain(m), Plain(n)) => SameName(m, n)
    case _ => false
  }

  /** Both authorities have a host and a valid port or none; the hosts are the same but for case, and the
      ports mean the same under the scheme. */
  predicate SameEndpoint(written: string, normal: string, scheme: Scheme) {
    match (SplitAuthority(written), SplitAuthority(normal))
    case (Some((host, port)), Some((host', port'))) =>
      && SameHost(host, host')
      && (port.Some? ==> IsPort(port.value)) && (port'.Some? ==> IsPort(port'.value))
      && EffectivePort(port', scheme) == EffectivePort(port, scheme)
    case _ => false
  }

  /** The same path without superfluous slashes at its ends, with the endpoint behind it if it is missing. */
  predicate SamePath(written: string, normal: string) {
    var trimmed := TrimSlashes(OneSlash(written));
    EndsWith(normal, ENDPOINT) && (normal == trimmed || normal == trimmed + ENDPOINT)
  }

  predicate SameUrl(written: string, normal: string) {
    match (SplitUrl(Trim(written)), SplitUrl(normal))
    case (Some((scheme, a, p)), Some((scheme', a', p'))) =>
      scheme' == scheme && SameEndpoint(a, a', scheme) && SamePath(p, p')
    case _ => false
  }

  lemma MeaningOfParts(value: string, scheme: Scheme, authority: string, path: string, a: string, p: string)
    requires SplitUrl(Trim(value)) == Some((scheme, authority, path))
    requires NormalizeAuthority(authority, scheme) == Some(a) && NormalizePath(path) == Some(p)
    ensures SameUrl(value, UrlText(scheme, a, p))
  {
    SplitPath(Trim(value));
    NormalPath(path, p);
    PathMeansTheSame(path, p);
    NormalPartsAreStable(scheme, authority, path, a, p);
    AuthorityKeepsMeaning(authority, scheme, a);
  }

  /** Normalization keeps what a client connects to: the same scheme, the same host in lower case, a port that
      means the same, and the same path up to slashes and the endpoint. */
  lemma NormalizationKeepsMeaning(value: string)
    ensures var r := NormalizeWebSocketUrl(value);
            r.Some? ==> SameUrl(value, r.value)
  {
    if NormalizeWebSocketUrl(value).Some? {
      var (scheme, authority, path) := SplitUrl(Trim(value)).value;
      MeaningOfParts(value, scheme, authority, path,
                     NormalizeAuthority(authority, scheme).value, NormalizePath(path).value);
    }
  }

  lemma PathMeansTheSame(path: string, p: string)
    requires path == "" || path[0] == '/'
    requires NormalizePath(path) == Some(p)
    ensures SamePath(path, p)
  {
    PathIsStable(path);
    TrimmedIsOneSlashed(path);
    OneSlashStays(TrimSlashes(OneSlash(path)) + ENDPOINT);
  }

  lemma EndpointIsNormal()
    ensures NormalizePath(ENDPOINT) == Some(ENDPOINT)
  {
    assert NoDots("") by { assert Split("", '/') == [""] && !IsDot(""); }
    EndpointHasNoDots("");
    assert "" + ENDPOINT == ENDPOINT;
    OneSlashStays(ENDPOINT);
    TrimStays(ENDPOINT);
    SafeChars("", ENDPOINT);
  }

  /** Every canonical endpoint is accepted as it is: a settled host, no port or one that is not the scheme's. */
  lemma CanonicalIsAccepted(scheme: Scheme, h: Host, port: Option<string>)
    requires Settled(h) && (port.Some? ==> IsPort(port.value)) && NormalPort(port, scheme) == port
    ensures var url := UrlText(scheme, HostText(h) + Suffix(port), ENDPOINT);
            NormalizeWebSocketUrl(url) == Some(url)
  {
    var a := HostText(h) + Suffix(port);
    SettledAuthority(h, port, scheme);
    SettledChars(h, port);
    EndpointIsNormal();
    NoQueryInEndpoint();
    SplitsAgain(scheme, a, ENDPOINT);
    UrlIsTrimmed(scheme, a, ENDPOINT);
  }

  lemma AuthorityKeepsMeaning(authority: string, scheme: Scheme, a: string)
    requires NormalizeAuthority(authority, scheme) == Some(a)
    ensures SameEndpoint(authority, a, scheme)
  {
    AuthorityIsStable(authority, scheme);
    var (host, port) := SplitAuthority(authority).value;
    HostMeansTheSame(host);
    NormalPortMeansTheSame(port, scheme);
  }

  lemma HostMeansTheSame(h: Host)
    requires NormalizeHost(h).Some?
    ensures SameHost(h, NormalizeHost(h).value)
  {
    match h {
      case Bracketed(a) => LowerIpv6(a);
      case Plain(n) => HostnameIsStable(n);
    }
  }
}
