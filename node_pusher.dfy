/**
 * The decision logic of the pusher process: choosing the local address,
 * building the push request, classifying the response, the per-tick cycle
 * and the sorted listing of enabled collectors at startup.
 */
module NodePusher {
  import opened Wrappers

  // ---------------------------------------------------------------------------
  // getLocalIP

  /**
   * An address's IP as `getLocalIP` inspects it: whether `IsLoopback()` holds,
   * and `String()` of the address when `To4()` is not nil (None when it is).
   */
  datatype IP = IP(isLoopback: bool, ipv4Text: Option<string>)

  /** An entry of `net.InterfaceAddrs()`: an `*net.IPNet`, or any other `net.Addr`. */
  datatype Addr = IPNet(ip: IP) | OtherAddr

  const NoInterfaceError := "no interface found"

  /** An address `getLocalIP` may return: an IP network, not loopback, with an IPv4 form. */
  predicate Qualifies(a: Addr)
  {
    a.IPNet? && !a.ip.isLoopback && a.ip.ipv4Text.Some?
  }

  /** `k` is the first qualifying position of `addrs`. */
  predicate FirstQualifying(addrs: seq<Addr>, k: int)
  {
    0 <= k < |addrs| && Qualifies(addrs[k]) && forall j :: 0 <= j < k ==> !Qualifies(addrs[j])
  }

  /** The address loop of `getLocalIP`: the first qualifying address, in list order. */
  function FirstLocalIP(addrs: seq<Addr>): (r: Result<string>)
    ensures r.Err? <==> forall k :: 0 <= k < |addrs| ==> !Qualifies(addrs[k])
    ensures r.Err? ==> r.error == NoInterfaceError
    ensures r.Ok? ==> exists k :: FirstQualifying(addrs, k) && r.value == addrs[k].ip.ipv4Text.value
  {
    if |addrs| == 0 then Err(NoInterfaceError)
    else if Qualifies(addrs[0]) then Ok(addrs[0].ip.ipv4Text.value)
    else
      var r := FirstLocalIP(addrs[1..]);
      assert forall k :: 1 <= k < |addrs| ==> addrs[k] == addrs[1..][k - 1];
      if r.Ok? then
        var k :| FirstQualifying(addrs[1..], k) && r.value == addrs[1..][k].ip.ipv4Text.value;
        assert addrs[k + 1] == addrs[1..][k];
        assert FirstQualifying(addrs, k + 1);
        r
      else r
  }

  /** `getLocalIP`: an interface-listing error is passed through; otherwise the first match. */
  function GetLocalIP(addrs: Result<seq<Addr>>): (r: Result<string>)
    ensures addrs.Err? ==> r == Err(addrs.error)
    ensures addrs.Ok? ==> r == FirstLocalIP(addrs.value)
  {
    match addrs
    case Err(e) => Err(e)
    case Ok(listing) => FirstLocalIP(listing)
  }

  /** The result never reveals a later address when an earlier one qualifies. */
  lemma FirstLocalIPPicksFirst(addrs: seq<Addr>, k: nat)
    requires k < |addrs| && Qualifies(addrs[k])
    requires forall j :: 0 <= j < k ==> !Qualifies(addrs[j])
    ensures FirstLocalIP(addrs) == Ok(addrs[k].ip.ipv4Text.value)
  {
    var r := FirstLocalIP(addrs);
    var k' :| FirstQualifying(addrs, k') && r.value == addrs[k'].ip.ipv4Text.value;
    assert k' == k;
  }

  // ---------------------------------------------------------------------------
  // The push request

  const JobPath := "/metrics/job/node/instance/"

  /** The target of the POST: plain concatenation, no slash normalisation. */
  function PushURL(gateway: string, ip: string): string
  {
    gateway + JobPath + ip
  }

  /** Reading the instance back from a push URL for a given gateway (the partner of PushURL). */
  function InstanceOf(url: string, gateway: string): Option<string>
  {
    if gateway + JobPath <= url then Some(url[|gateway + JobPath|..]) else None
  }

  lemma {:induction false} PushURLRoundTrip(gateway: string, ip: string)
    ensures InstanceOf(PushURL(gateway, ip), gateway) == Some(ip)
  {
    assert PushURL(gateway, ip) == (gateway + JobPath) + ip;
    assert (gateway + JobPath) <= PushURL(gateway, ip);
    assert PushURL(gateway, ip)[|gateway + JobPath|..] == ip;
  }

  /** One gateway, two addresses: two different targets. */
  lemma PushURLInjective(gateway: string, ip1: string, ip2: string)
    requires ip1 != ip2
    ensures PushURL(gateway, ip1) != PushURL(gateway, ip2)
  {
    PushURLRoundTrip(gateway, ip1);
    PushURLRoundTrip(gateway, ip2);
  }

  /** A gateway ending in `/` keeps its slash: the path then starts with `//`. */
  lemma NoSlashNormalisation(gateway: string, ip: string)
    ensures PushURL(gateway + "/", ip) == gateway + "//metrics/job/node/instance/" + ip
  {
  }

  /** A header as added by `Header.Add`, in the order added. */
  type Header = (string, string)

  /** The three headers of the push request, for a bearer token. */
  function PushHeaders(token: string): seq<Header>
  {
    [("Blade-Auth", "bearer " + token), ("User-Agent", "node pusher"), ("Content-Type", "text/plain;charset=utf-8")]
  }

  /** `Header.Get` for names that are already canonical: the first value added under `name`. */
  function HeaderValue(headers: seq<Header>, name: string): Option<string>
  {
    if |headers| == 0 then None
    else if headers[0].0 == name then Some(headers[0].1)
    else HeaderValue(headers[1..], name)
  }

  /** Exactly the three headers: bearer auth, the fixed user agent and the text content type. */
  lemma PushHeadersExactly(token: string, name: string)
    ensures |PushHeaders(token)| == 3
    ensures HeaderValue(PushHeaders(token), "Blade-Auth") == Some("bearer " + token)
    ensures HeaderValue(PushHeaders(token), "User-Agent") == Some("node pusher")
    ensures HeaderValue(PushHeaders(token), "Content-Type") == Some("text/plain;charset=utf-8")
    ensures name !in {"Blade-Auth", "User-Agent", "Content-Type"} ==> HeaderValue(PushHeaders(token), name) == None
  {
    var hs := PushHeaders(token);
    assert "Blade-Auth"[0] != "Content-Type"[0] && "User-Agent"[0] != "Content-Type"[0];
    assert "Blade-Auth"[0] != "User-Agent"[0];
    assert hs[1..][1..][1..] == [];
    assert HeaderValue(hs, "Content-Type") == HeaderValue(hs[1..], "Content-Type");
    assert HeaderValue(hs[1..], "Content-Type") == HeaderValue(hs[1..][1..], "Content-Type");
    if name !in {"Blade-Auth", "User-Agent", "Content-Type"} {
      assert HeaderValue(hs, name) == HeaderValue(hs[1..], name);
      assert HeaderValue(hs[1..], name) == HeaderValue(hs[1..][1..], name);
      assert HeaderValue(hs[1..][1..], name) == HeaderValue(hs[1..][1..][1..], name);
    }
  }

  /** The response classification: a status in [200, 299] is success. */
  predicate IsSuccess(status: int)
  {
    status >= 200 && status <= 299
  }

  /** Success is exactly the 2xx class of a non-negative status code. */
  lemma SuccessIs2xx(status: int)
    requires status >= 0
    ensures IsSuccess(status) <==> status / 100 == 2
  {
  }

  // ---------------------------------------------------------------------------
  // One tick of the push loop

  datatype Request = Request(verb: string, url: string, headers: seq<Header>, body: string)

  /**
   * What `clt.Do` gives: an error with a nil response (a transport failure),
   * an error with a non-nil, already closed response (a refused redirect,
   * after ten redirects with the default client), or a response whose body
   * may fail to read.
   */
  datatype SendResult =
    | SendFailed(sendError: string)
    | RedirectRefused(redirectError: string)
    | Response(status: int, body: Result<string>)

  /**
   * How a tick ends. `Crashed` is a panic of the process: on a gather or
   * encode error, on an address lookup error, and on an error that comes
   * with a nil response (`defer resp.Body.Close()` dereferences it before
   * the error is checked). `Skipped` logs and waits for the next tick.
   */
  datatype TickOutcome =
    | Crashed(reason: string)
    | Skipped(logged: string)
    | Delivered(request: Request, status: int)
    | Rejected(request: Request, status: int, loggedBody: string)

  const NilResponsePanic := "nil pointer dereference"

  /**
   * One tick after the timer fires. `encoded` is the gathered and encoded
   * batch, `addrs` the interface listing, `requestError` what
   * `http.NewRequest` fails with, `send` what the client returns.
   */
  function Tick(gateway: string, token: string, encoded: Result<string>, addrs: Result<seq<Addr>>,
                requestError: Option<string>, send: SendResult): (r: TickOutcome)
    ensures encoded.Err? ==> r == Crashed(encoded.error)
    ensures encoded.Ok? && GetLocalIP(addrs).Err? ==> r == Crashed(GetLocalIP(addrs).error)
    ensures r.Delivered? || r.Rejected? ==>
      && GetLocalIP(addrs).Ok?
      && r.request == Request("POST", PushURL(gateway, GetLocalIP(addrs).value), PushHeaders(token), encoded.value)
    ensures r.Delivered? <==>
      encoded.Ok? && GetLocalIP(addrs).Ok? && requestError.None? && send.Response? && IsSuccess(send.status)
    ensures r.Rejected? <==>
      encoded.Ok? && GetLocalIP(addrs).Ok? && requestError.None? && send.Response? && !IsSuccess(send.status) &&
      send.body.Ok?
    ensures r.Rejected? ==> r.loggedBody == send.body.value && r.status == send.status
    ensures r.Delivered? ==> r.status == send.status
    ensures encoded.Ok? && GetLocalIP(addrs).Ok? && requestError.Some? ==> r == Skipped(requestError.value)
    ensures encoded.Ok? && GetLocalIP(addrs).Ok? && requestError.None? && send.SendFailed? ==>
      r == Crashed(NilResponsePanic)
    ensures encoded.Ok? && GetLocalIP(addrs).Ok? && requestError.None? && send.RedirectRefused? ==>
      r == Skipped(send.redirectError)
    ensures (encoded.Ok? && GetLocalIP(addrs).Ok? && requestError.None? && send.Response? &&
             !IsSuccess(send.status) && send.body.Err?) ==> r == Skipped(send.body.error)
  {
    if encoded.Err? then Crashed(encoded.error)
    else
      var ip := GetLocalIP(addrs);
      if ip.Err? then Crashed(ip.error)
      else if requestError.Some? then Skipped(requestError.value)
      else
        var request := Request("POST", PushURL(gateway, ip.value), PushHeaders(token), encoded.value);
        match send
        case SendFailed(_) => Crashed(NilResponsePanic)
        case RedirectRefused(e) => Skipped(e)
        case Response(status, body) =>
          if IsSuccess(status) then Delivered(request, status)
          else if body.Err? then Skipped(body.error)
          else Rejected(request, status, body.value)
  }

  // ---------------------------------------------------------------------------
  // The enabled-collector listing of `start`

  /** `sort.Strings` order: lexicographic by character, a proper prefix first. */
  predicate LessEq(a: string, b: string)
  {
    |a| == 0 || (|b| > 0 && (a[0] < b[0] || (a[0] == b[0] && LessEq(a[1..], b[1..]))))
  }

  lemma {:induction false} LessEqTotal(a: string, b: string)
    ensures LessEq(a, b) || LessEq(b, a)
  {
    if |a| > 0 && |b| > 0 && a[0] == b[0] {
      LessEqTotal(a[1..], b[1..]);
    }
  }

  lemma {:induction false} LessEqTransitive(a: string, b: string, c: string)
    requires LessEq(a, b) && LessEq(b, c)
    ensures LessEq(a, c)
  {
    if |a| > 0 && |b| > 0 && |c| > 0 && a[0] == b[0] && b[0] == c[0] {
      LessEqTransitive(a[1..], b[1..], c[1..]);
    }
  }

  lemma {:induction false} LessEqAntisymmetric(a: string, b: string)
    requires LessEq(a, b) && LessEq(b, a)
    ensures a == b
  {
    if |a| > 0 && |b| > 0 {
      LessEqAntisymmetric(a[1..], b[1..]);
      assert a == [a[0]] + a[1..] && b == [b[0]] + b[1..];
    }
  }

  ghost predicate Sorted(s: seq<string>)
  {
    forall x, y :: 0 <= x < y < |s| ==> LessEq(s[x], s[y])
  }

  /** A sorted listing of distinct names is strictly increasing. */
  lemma SortedDistinctIsStrict(s: seq<string>, x: nat, y: nat)
    requires Sorted(s) && x < y < |s| && s[x] != s[y]
    ensures !LessEq(s[y], s[x])
  {
    if LessEq(s[y], s[x]) {
      LessEqAntisymmetric(s[x], s[y]);
    }
  }

  /** Sorted on [0, i] apart from position j. */
  ghost predicate SortedExcept(s: seq<string>, i: nat, j: nat)
    requires i < |s|
  {
    forall x, y :: 0 <= x < y <= i && x != j && y != j ==> LessEq(s[x], s[y])
  }

  /** The element at j is below everything after it up to i. */
  ghost predicate BelowRest(s: seq<string>, i: nat, j: nat)
    requires j <= i < |s|
  {
    forall y :: j < y <= i ==> LessEq(s[j], s[y])
  }

  /** One swap of the insertion pass keeps its invariant, one position further down. */
  lemma SwapStep(s: seq<string>, t: seq<string>, i: nat, j: nat)
    requires 0 < j <= i < |s| && t == s[j - 1 := s[j]][j := s[j - 1]]
    requires SortedExcept(s, i, j) && BelowRest(s, i, j) && LessEq(s[j], s[j - 1])
    ensures SortedExcept(t, i, j - 1) && BelowRest(t, i, j - 1)
    ensures multiset(t) == multiset(s)
  {
  }

  /** After the insertion pass: the moved element sits between its neighbours. */
  lemma InsertedSorted(s: seq<string>, i: nat, j: nat)
    requires j <= i < |s|
    requires SortedExcept(s, i, j) && BelowRest(s, i, j)
    requires j == 0 || LessEq(s[j - 1], s[j])
    ensures forall x, y :: 0 <= x < y <= i ==> LessEq(s[x], s[y])
  {
    forall x, y | 0 <= x < y <= i ensures LessEq(s[x], s[y]) {
      if y == j && x < j - 1 {
        LessEqTransitive(s[x], s[j - 1], s[j]);
      }
    }
  }

  /** `sort.Strings` on the slice, in place: an insertion sort by adjacent swaps. */
  method SortStrings(a: array<string>)
    modifies a
    ensures Sorted(a[..])
    ensures multiset(a[..]) == multiset(old(a[..]))
  {
    for i := 0 to a.Length
      invariant forall x, y :: 0 <= x < y < i ==> LessEq(a[x], a[y])
      invariant multiset(a[..]) == multiset(old(a[..]))
    {
      var j := i;
      while j > 0 && !LessEq(a[j - 1], a[j])
        invariant 0 <= j <= i
        invariant SortedExcept(a[..], i, j) && BelowRest(a[..], i, j)
        invariant multiset(a[..]) == multiset(old(a[..]))
      {
        LessEqTotal(a[j - 1], a[j]);
        ghost var before := a[..];
        a[j - 1], a[j] := a[j], a[j - 1];
        SwapStep(before, a[..], i, j);
        j := j - 1;
      }
      InsertedSorted(a[..], i, j);
    }
  }

  /** The append loop over the collector map: each name once, in map iteration order. */
  method ListNames(collectors: set<string>) returns (listed: seq<string>)
    ensures multiset(listed) == multiset(collectors)
  {
    listed := [];
    var todo := collectors;
    while todo != {}
      invariant todo <= collectors
      invariant multiset(listed) == multiset(collectors - todo)
      decreases todo
    {
      var n :| n in todo;
      assert collectors - (todo - {n}) == (collectors - todo) + {n};
      listed := listed + [n];
      todo := todo - {n};
    }
    assert collectors - todo == collectors;
  }

  /**
   * The listing in `start`: the names of the enabled collectors, appended in
   * map iteration order and then sorted. No name is lost or repeated.
   */
  method EnabledCollectorNames(collectors: set<string>) returns (names: seq<string>)
    ensures Sorted(names)
    ensures multiset(names) == multiset(collectors)
    ensures |names| == |collectors| && forall n :: n in names <==> n in collectors
  {
    var listed := ListNames(collectors);
    var a := new string[|listed|](k requires 0 <= k < |listed| => listed[k]);
    assert a[..] == listed;
    SortStrings(a);
    names := a[..];
    assert |multiset(names)| == |multiset(collectors)|;
    forall n ensures n in names <==> n in collectors {
      assert n in names <==> n in multiset(names);
    }
  }

  /**
   * `start`: a collector-creation error is reported wrapped, before anything
   * is listed; otherwise the enabled names are logged in sorted order, and
   * a registration error is reported wrapped after the listing.
   */
  method Start(created: Result<set<string>>, registerError: Option<string>)
    returns (logged: seq<string>, err: Option<string>)
    ensures created.Err? ==> logged == [] && err == Some("couldn't create collector: " + created.error)
    ensures created.Ok? ==> Sorted(logged) && multiset(logged) == multiset(created.value)
    ensures created.Ok? && registerError.Some? ==> err == Some("couldn't register node collector: " + registerError.value)
    ensures created.Ok? && registerError.None? ==> err.None?
  {
    if created.Err? {
      return [], Some("couldn't create collector: " + created.error);
    }
    logged := EnabledCollectorNames(created.value);
    if registerError.Some? {
      return logged, Some("couldn't register node collector: " + registerError.value);
    }
    err := None;
  }
}
