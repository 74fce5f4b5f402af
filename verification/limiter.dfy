/** The portal's login state (csrfState in internal/portal/portal.go): a sliding-window limit on
    login attempts per address, a pace for form requests, form tokens, and the cleanup that runs
    beside them. */
module Limiters {
  /** Clock readings are in nanoseconds; the clock never goes back. */
  const SECOND: int := 1_000_000_000
  const WINDOW: int := 60 * SECOND
  const EXPIRY: int := 300 * SECOND
  const MAX_ATTEMPTS: nat := 20
  const MAX_KEYS: nat := 10000

  datatype Csrf = Csrf(pending: map<string, int>, used: map<string, int>, rateLimits: map<string, int>,
                       authLimits: map<string, seq<int>>)

  /** The stamps later than `cutoff`, in order. */
  function After(times: seq<int>, cutoff: int): seq<int> {
    if times == [] then []
    else After(times[..|times| - 1], cutoff)
         + if times[|times| - 1] > cutoff then [times[|times| - 1]] else []
  }

  /** The stamps in the half-open window of one minute that ends at `t`. */
  function InWindow(times: seq<int>, t: int): seq<int> {
    if times == [] then []
    else InWindow(times[..|times| - 1], t)
         + if t - WINDOW < times[|times| - 1] <= t then [times[|times| - 1]] else []
  }

  function Get(m: map<string, seq<int>>, k: string): seq<int> { if k in m then m[k] else [] }

  // ---- the operations ----

  datatype Verdict = Verdict(s: Csrf, ok: bool)

  /** `check` and `stamp` are the two clock readings the call makes. */
  function AllowAuthAttempt(s: Csrf, ip: string, check: int, stamp: int): Verdict {
    var recent := After(Get(s.authLimits, ip), check - WINDOW);
    if |s.authLimits| >= MAX_KEYS || |recent| >= MAX_ATTEMPTS then Verdict(s, false)
    else Verdict(s.(authLimits := s.authLimits[ip := recent + [stamp]]), true)
  }

  function AllowCsrfRequest(s: Csrf, ip: string, check: int, stamp: int): Verdict {
    if |s.rateLimits| >= MAX_KEYS || (ip in s.rateLimits && check - s.rateLimits[ip] < SECOND) then Verdict(s, false)
    else Verdict(s.(rateLimits := s.rateLimits[ip := stamp]), true)
  }

  /** The first of the two critical sections of `generate`: whether to issue at all. */
  predicate MayIssue(s: Csrf) { |s.used| < MAX_KEYS }

  /** The second one, some time later. */
  function StoreToken(s: Csrf, token: string, at: int): Csrf {
    s.(pending := s.pending[token := at])
  }

  function VerifyAndConsume(s: Csrf, cookie: string, body: string, check: int, stamp: int): Verdict {
    if cookie != body then Verdict(s, false)
    else if cookie in s.pending then
      if check - s.pending[cookie] > EXPIRY then Verdict(s.(pending := s.pending - {cookie}), false)
      else Verdict(s.(pending := s.pending - {cookie}, used := s.used[cookie := stamp]), true)
    else if cookie in s.used then
      if check - s.used[cookie] <= EXPIRY then Verdict(s, false)
      else Verdict(s.(used := s.used[cookie := stamp]), true)
    else Verdict(s, false)
  }

  function Fresh(m: map<string, int>, cutoff: int): map<string, int> {
    map k | k in m && m[k] >= cutoff :: m[k]
  }

  function FreshLists(m: map<string, seq<int>>, cutoff: int): map<string, seq<int>> {
    map k | k in m && After(m[k], cutoff) != [] :: After(m[k], cutoff)
  }

  function Cleanup(s: Csrf, now: int): Csrf {
    var cutoff := now - EXPIRY;
    Csrf(Fresh(s.pending, cutoff), Fresh(s.used, cutoff), Fresh(s.rateLimits, cutoff), FreshLists(s.authLimits, cutoff))
  }

  // ---- runs ----

  datatype Step =
    | Attempt(ip: string, check: int, stamp: int)
    | Request(ip: string, check: int, stamp: int)
    | Issue(token: string, at: int)
    | Verify(cookie: string, body: string, check: int, stamp: int)
    | Clean(now: int)

  /** The state with its past: every attempt and request ever admitted per address, when each
      token was issued and accepted, and when the last cleanup ran. */
  datatype World = World(s: Csrf, clock: int, admitted: map<string, seq<int>>, requested: map<string, seq<int>>,
                         issued: map<string, int>, accepted: map<string, seq<int>>, cleaned: int)

  /** A token is stored when the earlier check let it through, whatever has been used since. */
  predicate Enabled(w: World, step: Step) {
    match step
    case Attempt(_, check, stamp) => w.clock <= check <= stamp
    case Request(_, check, stamp) => w.clock <= check <= stamp
    case Issue(token, at) => w.clock <= at && token !in w.issued
    case Verify(_, _, check, stamp) => w.clock <= check <= stamp
    case Clean(now) => w.clock <= now
  }

  function Next(w: World, step: Step): World {
    match step
    case Attempt(ip, check, stamp) =>
      var v := AllowAuthAttempt(w.s, ip, check, stamp);
      w.(s := v.s, clock := stamp,
      admitted := if v.ok then w.admitted[ip := Get(w.admitted, ip) + [stamp]] else w.admitted)
    case Request(ip, check, stamp) =>
      var v := AllowCsrfRequest(w.s, ip, check, stamp);
      w.(s := v.s, clock := stamp,
      requested := if v.ok then w.requested[ip := Get(w.requested, ip) + [stamp]] else w.requested)
    case Issue(token, at) => w.(s := StoreToken(w.s, token, at), clock := at, issued := w.issued[token := at])
    case Verify(cookie, body, check, stamp) =>
      var v := VerifyAndConsume(w.s, cookie, body, check, stamp);
      w.(s := v.s, clock := stamp,
      accepted := if v.ok then w.accepted[cookie := Get(w.accepted, cookie) + [stamp]] else w.accepted)
    case Clean(now) => w.(s := Cleanup(w.s, now), clock := now, cleaned := now)
  }

  function Start(clock: int): World {
    World(Csrf(map[], map[], map[], map[]), clock, map[], map[], map[], map[], clock)
  }

  predicate Possible(w: World, steps: seq<Step>)
    decreases |steps|
  {
    steps != [] ==> Enabled(w, steps[0]) && Possible(Next(w, steps[0]), steps[1..])
  }

  function Run(w: World, steps: seq<Step>): World
    decreases |steps|
  {
    if steps == [] then w else Run(Next(w, steps[0]), steps[1..])
  }

  // ---- the window ----

  lemma {:induction false} AfterSnoc(times: seq<int>, t: int, cutoff: int)
    ensures After(times + [t], cutoff) == After(times, cutoff) + if t > cutoff then [t] else []
  {
    assert (times + [t])[..|times|] == times;
  }

  lemma {:induction false} AfterAfter(times: seq<int>, c: int, d: int)
    requires c <= d
    ensures After(After(times, c), d) == After(times, d)
    ensures |After(times, d)| <= |After(times, c)|
  {
    if times != [] {
      var init, last := times[..|times| - 1], times[|times| - 1];
      AfterAfter(init, c, d);
      if last > c {
        assert After(times, c) == After(init, c) + [last];
        AfterSnoc(After(init, c), last, d);
      } else {
        assert After(times, c) == After(init, c) && After(times, d) == After(init, d);
      }
    }
  }

  lemma {:induction false} WindowInAfter(times: seq<int>, t: int)
    ensures |InWindow(times, t)| <= |After(times, t - WINDOW)|
    ensures (forall i | 0 <= i < |times| :: times[i] <= t) ==> InWindow(times, t) == After(times, t - WINDOW)
  {
    if times != [] {
      WindowInAfter(times[..|times| - 1], t);
    }
  }

  ghost predicate WindowsHold(times: seq<int>) {
    forall t :: |InWindow(times, t)| <= MAX_ATTEMPTS
  }

  /** What is stored for an address agrees with its whole history on the last minute. */
  ghost predicate Agree(stored: seq<int>, all: seq<int>, clock: int) {
    forall lo | lo >= clock - WINDOW :: After(stored, lo) == After(all, lo)
  }

  ghost predicate AddressOk(w: World, ip: string) {
    var stored, all := Get(w.s.authLimits, ip), Get(w.admitted, ip);
    && Agree(stored, all, w.clock)
    && (forall i | 0 <= i < |all| :: all[i] <= w.clock)
    && WindowsHold(all)
  }

  lemma AdmitKeepsAgree(stored: seq<int>, all: seq<int>, clock: int, check: int, stamp: int)
    requires Agree(stored, all, clock) && clock <= check <= stamp
    ensures Agree(After(stored, check - WINDOW) + [stamp], all + [stamp], stamp)
  {
    forall lo | lo >= stamp - WINDOW
      ensures After(After(stored, check - WINDOW) + [stamp], lo) == After(all + [stamp], lo)
    {
      AfterAfter(stored, check - WINDOW, lo);
      AfterSnoc(After(stored, check - WINDOW), stamp, lo);
      AfterSnoc(all, stamp, lo);
    }
  }

  lemma AdmitKeepsWindows(stored: seq<int>, all: seq<int>, clock: int, check: int, stamp: int)
    requires Agree(stored, all, clock) && clock <= check <= stamp && WindowsHold(all)
    requires |After(stored, check - WINDOW)| < MAX_ATTEMPTS
    ensures WindowsHold(all + [stamp])
  {
    forall t
      ensures |InWindow(all + [stamp], t)| <= MAX_ATTEMPTS
    {
      assert (all + [stamp])[..|all|] == all;
      assert |InWindow(all, t)| <= MAX_ATTEMPTS;
      if t >= stamp {
        WindowInAfter(all, t);
        AfterAfter(all, check - WINDOW, t - WINDOW);
      }
    }
  }

  lemma CleanKeepsAgree(stored: seq<int>, all: seq<int>, clock: int, now: int)
    requires Agree(stored, all, clock) && clock <= now
    ensures Agree(After(stored, now - EXPIRY), all, now)
  {
    forall lo | lo >= now - WINDOW
      ensures After(After(stored, now - EXPIRY), lo) == After(all, lo)
    {
      AfterAfter(stored, now - EXPIRY, lo);
    }
  }

  lemma LaterAgree(stored: seq<int>, all: seq<int>, clock: int, later: int)
    requires Agree(stored, all, clock) && clock <= later
    ensures Agree(stored, all, later)
  {
  }

  lemma AddressAdmitted(w: World, ip: string, check: int, stamp: int)
    requires AddressOk(w, ip) && Enabled(w, Attempt(ip, check, stamp))
    requires AllowAuthAttempt(w.s, ip, check, stamp).ok
    ensures AddressOk(Next(w, Attempt(ip, check, stamp)), ip)
  {
    var stored, all := Get(w.s.authLimits, ip), Get(w.admitted, ip);
    var after := Next(w, Attempt(ip, check, stamp));
    AdmitKeepsAgree(stored, all, w.clock, check, stamp);
    AdmitKeepsWindows(stored, all, w.clock, check, stamp);
    assert Get(after.s.authLimits, ip) == After(stored, check - WINDOW) + [stamp];
    assert Get(after.admitted, ip) == all + [stamp];
  }

  lemma AddressAttempt(w: World, who: string, check: int, stamp: int, ip: string)
    requires AddressOk(w, ip) && Enabled(w, Attempt(who, check, stamp))
    ensures AddressOk(Next(w, Attempt(who, check, stamp)), ip)
  {
    var stored, all := Get(w.s.authLimits, ip), Get(w.admitted, ip);
    if who == ip && AllowAuthAttempt(w.s, ip, check, stamp).ok {
      AddressAdmitted(w, ip, check, stamp);
    } else {
      var after := Next(w, Attempt(who, check, stamp));
      assert Get(after.s.authLimits, ip) == stored && Get(after.admitted, ip) == all;
      LaterAgree(stored, all, w.clock, stamp);
    }
  }

  lemma AddressClean(w: World, now: int, ip: string)
    requires AddressOk(w, ip) && Enabled(w, Clean(now))
    ensures AddressOk(Next(w, Clean(now)), ip)
  {
    var stored, all := Get(w.s.authLimits, ip), Get(w.admitted, ip);
    CleanKeepsAgree(stored, all, w.clock, now);
    assert Get(FreshLists(w.s.authLimits, now - EXPIRY), ip) == After(stored, now - EXPIRY);
  }

  lemma AddressNext(w: World, step: Step, ip: string)
    requires AddressOk(w, ip) && Enabled(w, step)
    ensures AddressOk(Next(w, step), ip)
  {
    var stored, all := Get(w.s.authLimits, ip), Get(w.admitted, ip);
    match step
    case Attempt(who, check, stamp) => AddressAttempt(w, who, check, stamp, ip);
    case Request(_, _, stamp) => LaterAgree(stored, all, w.clock, stamp);
    case Issue(_, at) => LaterAgree(stored, all, w.clock, at);
    case Verify(_, _, _, stamp) => LaterAgree(stored, all, w.clock, stamp);
    case Clean(now) => AddressClean(w, now, ip);
  }

  lemma {:induction false} AddressRun(w: World, steps: seq<Step>, ip: string)
    requires AddressOk(w, ip) && Possible(w, steps)
    ensures AddressOk(Run(w, steps), ip)
    decreases |steps|
  {
    if steps != [] {
      AddressNext(w, steps[0], ip);
      AddressRun(Next(w, steps[0]), steps[1..], ip);
    }
  }

  /** Over any run, with cleanups anywhere, every half-open one-minute window holds at most 20
      admitted attempts of any one address. */
  lemma WindowLimit(clock: int, steps: seq<Step>, ip: string, t: int)
    requires Possible(Start(clock), steps)
    ensures |InWindow(Get(Run(Start(clock), steps).admitted, ip), t)| <= MAX_ATTEMPTS
  {
    assert InWindow([], t) == [];
    AddressRun(Start(clock), steps, ip);
  }

  function Last(times: seq<int>): int
    requires times != []
  {
    times[|times| - 1]
  }

  /** No stamp is later than `bound`. */
  ghost predicate UpTo(times: seq<int>, bound: int) { forall i | 0 <= i < |times| :: times[i] <= bound }

  lemma {:induction false} AfterUpTo(times: seq<int>, cutoff: int, bound: int)
    requires UpTo(times, bound)
    ensures UpTo(After(times, cutoff), bound)
    ensures bound <= cutoff ==> After(times, cutoff) == []
  {
    if times != [] {
      AfterUpTo(times[..|times| - 1], cutoff, bound);
    }
  }

  ghost predicate LastIsLatest(times: seq<int>) { times != [] && UpTo(times, Last(times)) }

  lemma AfterLast(times: seq<int>, cutoff: int)
    requires LastIsLatest(times)
    ensures After(times, cutoff) == [] <==> Last(times) <= cutoff
    ensures Last(times) > cutoff ==>
              LastIsLatest(After(times, cutoff)) && Last(After(times, cutoff)) == Last(times)
  {
    AfterUpTo(times, cutoff, Last(times));
    if Last(times) > cutoff {
      assert After(times, cutoff) == After(times[..|times| - 1], cutoff) + [Last(times)];
    }
  }

  /** An address is in the table exactly while its last admitted attempt was no older than five
      minutes when the table was last cleaned. */
  ghost predicate ListOk(w: World, ip: string) {
    var stored, all := Get(w.s.authLimits, ip), Get(w.admitted, ip);
    && w.cleaned <= w.clock && (all != [] ==> Last(all) <= w.clock)
    && (ip in w.s.authLimits <==> all != [] && Last(all) > w.cleaned - EXPIRY)
    && (ip in w.s.authLimits ==> LastIsLatest(stored) && Last(stored) == Last(all))
  }

  lemma ListAdmitted(w: World, ip: string, check: int, stamp: int)
    requires ListOk(w, ip) && Enabled(w, Attempt(ip, check, stamp)) && AllowAuthAttempt(w.s, ip, check, stamp).ok
    ensures ListOk(Next(w, Attempt(ip, check, stamp)), ip)
  {
    var stored := Get(w.s.authLimits, ip);
    var kept := After(stored, check - WINDOW);
    AfterUpTo(stored, check - WINDOW, stamp);
    assert Get(Next(w, Attempt(ip, check, stamp)).s.authLimits, ip) == kept + [stamp];
  }

  lemma ListCleaned(w: World, now: int, ip: string)
    requires ListOk(w, ip) && Enabled(w, Clean(now))
    ensures ListOk(Next(w, Clean(now)), ip)
  {
    if ip in w.s.authLimits {
      AfterLast(w.s.authLimits[ip], now - EXPIRY);
    }
  }

  lemma ListNext(w: World, step: Step, ip: string)
    requires ListOk(w, ip) && Enabled(w, step)
    ensures ListOk(Next(w, step), ip)
  {
    match step
    case Attempt(who, check, stamp) =>
      if who == ip && AllowAuthAttempt(w.s, ip, check, stamp).ok {
        ListAdmitted(w, ip, check, stamp);
      }
    case Clean(now) => ListCleaned(w, now, ip);
    case _ =>
  }

  lemma {:induction false} ListRun(w: World, steps: seq<Step>, ip: string)
    requires ListOk(w, ip) && Possible(w, steps)
    ensures ListOk(Run(w, steps), ip)
    decreases |steps|
  {
    if steps != [] {
      ListNext(w, steps[0], ip);
      ListRun(Next(w, steps[0]), steps[1..], ip);
    }
  }

  /** The addresses whose last admitted attempt the last cleanup found no older than five
      minutes. */
  function Attempters(w: World): set<string> {
    set ip | ip in w.admitted && w.admitted[ip] != [] && Last(w.admitted[ip]) > w.cleaned - EXPIRY
  }

  lemma AttemptTable(clock: int, steps: seq<Step>)
    requires Possible(Start(clock), steps)
    ensures var w := Run(Start(clock), steps); |w.s.authLimits| == |Attempters(w)|
  {
    var w := Run(Start(clock), steps);
    forall ip
      ensures ip in w.s.authLimits <==> ip in Attempters(w)
    {
      ListRun(Start(clock), steps, ip);
    }
    assert w.s.authLimits.Keys == Attempters(w);
    assert |w.s.authLimits| == |w.s.authLimits.Keys|;
  }

  /** And it refuses no more than that: an attempt is admitted exactly when fewer than 20 were
      admitted in the minute up to its check and the table of addresses, which a cleanup clears of
      those without an admitted attempt in the last five minutes, is not full. */
  lemma AdmittedIff(clock: int, steps: seq<Step>, ip: string, check: int, stamp: int)
    requires Possible(Start(clock), steps) && Run(Start(clock), steps).clock <= check <= stamp
    ensures var w := Run(Start(clock), steps);
            AllowAuthAttempt(w.s, ip, check, stamp).ok
            <==> |InWindow(Get(w.admitted, ip), check)| < MAX_ATTEMPTS && |Attempters(w)| < MAX_KEYS
  {
    AddressRun(Start(clock), steps, ip);
    AttemptTable(clock, steps);
    var w := Run(Start(clock), steps);
    WindowInAfter(Get(w.admitted, ip), check);
    assert After(Get(w.s.authLimits, ip), check - WINDOW) == After(Get(w.admitted, ip), check - WINDOW);
  }

  // ---- form requests ----

  ghost predicate Spaced(times: seq<int>, gap: int) {
    forall i | 0 < i < |times| :: times[i - 1] + gap <= times[i]
  }

  /** What is stored is the last admitted request, until a cleanup finds it stale. */
  ghost predicate PaceOk(w: World, ip: string) {
    var times := Get(w.requested, ip);
    && w.cleaned <= w.clock
    && Spaced(times, SECOND)
    && (ip in w.s.rateLimits <==> times != [] && w.cleaned <= Last(times) + EXPIRY)
    && (ip in w.s.rateLimits ==> w.s.rateLimits[ip] == Last(times))
  }

  lemma PaceNext(w: World, step: Step, ip: string)
    requires PaceOk(w, ip) && Enabled(w, step)
    ensures PaceOk(Next(w, step), ip)
  {
  }

  lemma {:induction false} PaceRun(w: World, steps: seq<Step>, ip: string)
    requires PaceOk(w, ip) && Possible(w, steps)
    ensures PaceOk(Run(w, steps), ip)
    decreases |steps|
  {
    if steps != [] {
      PaceNext(w, steps[0], ip);
      PaceRun(Next(w, steps[0]), steps[1..], ip);
    }
  }

  /** The addresses whose last admitted request the last cleanup found no older than five
      minutes. */
  function Requesters(w: World): set<string> {
    set ip | ip in w.requested && w.requested[ip] != [] && w.cleaned <= Last(w.requested[ip]) + EXPIRY
  }

  lemma RequestTable(clock: int, steps: seq<Step>)
    requires Possible(Start(clock), steps)
    ensures var w := Run(Start(clock), steps); |w.s.rateLimits| == |Requesters(w)|
  {
    var w := Run(Start(clock), steps);
    forall ip
      ensures ip in w.s.rateLimits <==> ip in Requesters(w)
    {
      PaceRun(Start(clock), steps, ip);
    }
    assert w.s.rateLimits.Keys == Requesters(w);
    assert |w.s.rateLimits| == |w.s.rateLimits.Keys|;
  }

  /** Over any run the admitted form requests of one address are at least a second apart, and a
      request is refused only for that or because the table of addresses is full, which a cleanup
      clears of those without an admitted request in the last five minutes. */
  lemma RequestPace(clock: int, steps: seq<Step>, ip: string, check: int, stamp: int)
    requires Possible(Start(clock), steps) && Run(Start(clock), steps).clock <= check <= stamp
    ensures var w := Run(Start(clock), steps);
            var times := Get(w.requested, ip);
            && Spaced(times, SECOND)
            && (AllowCsrfRequest(w.s, ip, check, stamp).ok
                <==> |Requesters(w)| < MAX_KEYS && (times == [] || check - Last(times) >= SECOND))
  {
    PaceRun(Start(clock), steps, ip);
    RequestTable(clock, steps);
  }

  // ---- form tokens ----

  /** Each acceptance comes more than five minutes after the one before. */
  ghost predicate Apart(times: seq<int>) {
    forall i | 0 < i < |times| :: times[i - 1] + EXPIRY < times[i]
  }

  ghost predicate TokenOk(w: World, token: string) {
    var times := Get(w.accepted, token);
    && Apart(times)
    && (token in w.s.pending ==>
          token in w.issued && w.s.pending[token] == w.issued[token] && times == [] && token !in w.s.used)
    && (token in w.s.used ==> token in w.issued && times != [] && times[|times| - 1] == w.s.used[token])
    && (times != [] ==> token in w.issued)
  }

  /** Why a token is no longer stored: it expired before its first use, or a cleanup found its
      last use stale. */
  ghost predicate KeptWhile(w: World, token: string) {
    var times := Get(w.accepted, token);
    && w.cleaned <= w.clock
    && (token in w.issued && times == [] && token !in w.s.pending ==> w.clock - w.issued[token] > EXPIRY)
    && (times != [] ==> (token in w.s.used <==> w.cleaned <= times[|times| - 1] + EXPIRY))
  }

  lemma TokenVerify(w: World, cookie: string, body: string, check: int, stamp: int, token: string)
    requires TokenOk(w, token) && Enabled(w, Verify(cookie, body, check, stamp))
    ensures TokenOk(Next(w, Verify(cookie, body, check, stamp)), token)
  {
    var v := VerifyAndConsume(w.s, cookie, body, check, stamp);
    if cookie != token {
      assert (token in v.s.pending <==> token in w.s.pending) && (token in v.s.used <==> token in w.s.used);
    } else if v.ok {
      var times := Get(w.accepted, token);
      assert times != [] ==> times[|times| - 1] + EXPIRY < stamp;
    }
  }

  lemma TokenNext(w: World, step: Step, token: string)
    requires TokenOk(w, token) && Enabled(w, step)
    ensures TokenOk(Next(w, step), token)
  {
    match step
    case Verify(cookie, body, check, stamp) => TokenVerify(w, cookie, body, check, stamp, token);
    case _ =>
  }

  lemma KeptNext(w: World, step: Step, token: string)
    requires TokenOk(w, token) && KeptWhile(w, token) && Enabled(w, step)
    ensures KeptWhile(Next(w, step), token)
  {
  }

  lemma {:induction false} TokenRun(w: World, steps: seq<Step>, token: string)
    requires TokenOk(w, token) && KeptWhile(w, token) && Possible(w, steps)
    ensures TokenOk(Run(w, steps), token) && KeptWhile(Run(w, steps), token)
    decreases |steps|
  {
    if steps != [] {
      TokenNext(w, steps[0], token);
      KeptNext(w, steps[0], token);
      TokenRun(Next(w, steps[0]), steps[1..], token);
    }
  }

  /** Over any run in which no token is issued twice, only issued tokens are accepted, and two
      acceptances of one token are more than five minutes apart. */
  lemma TokensApart(clock: int, steps: seq<Step>, token: string)
    requires Possible(Start(clock), steps)
    ensures var w := Run(Start(clock), steps);
            && Apart(Get(w.accepted, token))
            && (Get(w.accepted, token) != [] ==> token in w.issued)
  {
    TokenRun(Start(clock), steps, token);
  }

  /** Exactly when a token is accepted: the two values agree and it was issued, and either it
      has not been accepted before and is at most five minutes old, or its last acceptance is
      more than five minutes ago and no cleanup has run since those five minutes were over. */
  lemma AcceptedIff(clock: int, steps: seq<Step>, cookie: string, body: string, check: int, stamp: int)
    requires Possible(Start(clock), steps) && Run(Start(clock), steps).clock <= check <= stamp
    ensures var w := Run(Start(clock), steps);
            var times := Get(w.accepted, cookie);
            VerifyAndConsume(w.s, cookie, body, check, stamp).ok <==>
              && cookie == body && cookie in w.issued
              && if times == [] then check - w.issued[cookie] <= EXPIRY
                 else check - times[|times| - 1] > EXPIRY && w.cleaned <= times[|times| - 1] + EXPIRY
  {
    TokenRun(Start(clock), steps, cookie);
  }

  /** The tokens in use: accepted, and at the last cleanup not more than five minutes before. */
  function InUse(w: World): set<string> {
    set token | token in w.accepted && w.accepted[token] != [] && w.cleaned <= Last(w.accepted[token]) + EXPIRY
  }

  /** A new token is refused exactly when 10000 tokens are in use; ones that were issued and never
      accepted do not count. */
  lemma IssuedIff(clock: int, steps: seq<Step>)
    requires Possible(Start(clock), steps)
    ensures var w := Run(Start(clock), steps); MayIssue(w.s) <==> |InUse(w)| < 10000
  {
    var w := Run(Start(clock), steps);
    forall token
      ensures token in w.s.used <==> token in InUse(w)
    {
      TokenRun(Start(clock), steps, token);
    }
    assert w.s.used.Keys == InUse(w);
    assert |w.s.used| == |w.s.used.Keys|;
  }

  lemma OneStep(w: World, step: Step, rest: seq<Step>, after: World)
    requires Enabled(w, step) && Next(w, step) == after && Possible(after, rest)
    ensures Possible(w, [step] + rest) && Run(w, [step] + rest) == Run(after, rest)
  {
    assert ([step] + rest)[1..] == rest;
  }

  /** A run in which one token is accepted twice, five minutes apart with no cleanup between. */
  lemma AcceptedAgain()
    ensures var steps := [Issue("t", 0), Verify("t", "t", 1, 1), Verify("t", "t", EXPIRY + 2, EXPIRY + 2)];
            Possible(Start(0), steps) && Run(Start(0), steps).accepted == map["t" := [1, EXPIRY + 2]]
  {
    var s0, late := Csrf(map[], map[], map[], map[]), EXPIRY + 2;
    var steps := [Issue("t", 0), Verify("t", "t", 1, 1), Verify("t", "t", late, late)];
    var w1 := World(s0.(pending := map["t" := 0]), 0, map[], map[], map["t" := 0], map[], 0);
    var w2 := World(s0.(used := map["t" := 1]), 1, map[], map[], map["t" := 0], map["t" := [1]], 0);
    var w3 := World(s0.(used := map["t" := late]), late, map[], map[], map["t" := 0], map["t" := [1, late]], 0);
    assert [] + [1] == [1] && [1] + [late] == [1, late];
    assert map["t" := 1]["t" := late] == map["t" := late] && w1.s.pending - {"t"} == map[];
    OneStep(w2, steps[2], [], w3);
    OneStep(w1, steps[1], [steps[2]] + [], w2);
    OneStep(Start(0), steps[0], [steps[1]] + ([steps[2]] + []), w1);
    assert [steps[0]] + ([steps[1]] + ([steps[2]] + [])) == steps;
  }

  // ---- the state's own methods ----

  /** The lists when those of the addresses in `rest` are still to be swept. */
  function PartlySwept(m: map<string, seq<int>>, rest: set<string>, cutoff: int): map<string, seq<int>> {
    map k | k in m && (k in rest || After(m[k], cutoff) != []) :: if k in rest then m[k] else After(m[k], cutoff)
  }

  lemma PartlySweptNext(m: map<string, seq<int>>, rest: set<string>, cutoff: int, k: string)
    requires k in rest && k in m
    ensures PartlySwept(m, rest - {k}, cutoff)
            == if After(m[k], cutoff) == [] then PartlySwept(m, rest, cutoff) - {k}
               else PartlySwept(m, rest, cutoff)[k := After(m[k], cutoff)]
  {
  }

  class CsrfState {
    var pending: map<string, int>
    var used: map<string, int>
    var rateLimits: map<string, int>
    var authLimits: map<string, seq<int>>

    ghost function Now(): Csrf
      reads this
    {
      Csrf(pending, used, rateLimits, authLimits)
    }

    constructor ()
      ensures Now() == Csrf(map[], map[], map[], map[])
    {
      pending, used, rateLimits, authLimits := map[], map[], map[], map[];
    }

    static method Recent(times: seq<int>, cutoff: int) returns (newTimes: seq<int>)
      ensures newTimes == After(times, cutoff)
    {
      newTimes := [];
      for i := 0 to |times|
        invariant newTimes == After(times[..i], cutoff)
      {
        AfterSnoc(times[..i], times[i], cutoff);
        assert times[..i + 1] == times[..i] + [times[i]];
        if times[i] > cutoff {
          newTimes := newTimes + [times[i]];
        }
      }
      assert times[..|times|] == times;
    }

    method Allow(ip: string, check: int, stamp: int) returns (ok: bool)
      modifies this
      ensures Verdict(Now(), ok) == AllowAuthAttempt(old(Now()), ip, check, stamp)
    {
      if |authLimits| >= MAX_KEYS {
        return false;
      }
      var newTimes := Recent(if ip in authLimits then authLimits[ip] else [], check - WINDOW);
      if |newTimes| >= MAX_ATTEMPTS {
        return false;
      }
      newTimes := newTimes + [stamp];
      authLimits := authLimits[ip := newTimes];
      ok := true;
    }

    method AllowRequest(ip: string, check: int, stamp: int) returns (ok: bool)
      modifies this
      ensures Verdict(Now(), ok) == AllowCsrfRequest(old(Now()), ip, check, stamp)
    {
      if |rateLimits| >= MAX_KEYS {
        return false;
      }
      if ip in rateLimits && check - rateLimits[ip] < SECOND {
        return false;
      }
      rateLimits := rateLimits[ip := stamp];
      ok := true;
    }

    method RoomForToken() returns (ok: bool)
      ensures ok <==> MayIssue(Now())
    {
      ok := |used| < MAX_KEYS;
    }

    method Store(token: string, at: int)
      modifies this
      ensures Now() == StoreToken(old(Now()), token, at)
    {
      pending := pending[token := at];
    }

    /** `token` is the random value drawn; nothing else happens between the two critical
        sections here, while the runs above let anything happen. */
    method NewToken(token: string, at: int) returns (issued: string)
      modifies this
      ensures issued == if MayIssue(old(Now())) then token else ""
      ensures issued == token || |old(used)| >= 10000
      ensures Now() == if MayIssue(old(Now())) then StoreToken(old(Now()), token, at) else old(Now())
      ensures pending == if |old(used)| < 10000 then old(pending)[token := at] else old(pending)
    {
      var ok := RoomForToken();
      if !ok {
        return "";
      }
      Store(token, at);
      issued := token;
    }

    method Consume(cookie: string, body: string, check: int, stamp: int) returns (ok: bool)
      modifies this
      ensures Verdict(Now(), ok) == VerifyAndConsume(old(Now()), cookie, body, check, stamp)
    {
      if cookie != body {
        return false;
      }
      if cookie in pending {
        var createdAt := pending[cookie];
        pending := pending - {cookie};
        if check - createdAt > EXPIRY {
          return false;
        }
      } else if cookie in used {
        if check - used[cookie] <= EXPIRY {
          return false;
        }
        used := used - {cookie};
      } else {
        return false;
      }
      used := used[cookie := stamp];
      ok := true;
    }

    static method Sweep(m: map<string, int>, cutoff: int) returns (left: map<string, int>)
      ensures left == Fresh(m, cutoff)
    {
      left := m;
      var rest := m.Keys;
      while rest != {}
        invariant rest <= m.Keys
        invariant left == map k | k in m && (k in rest || m[k] >= cutoff) :: m[k]
      {
        var k :| k in rest;
        if m[k] < cutoff {
          left := left - {k};
        }
        rest := rest - {k};
      }
    }

    static method SweepLists(m: map<string, seq<int>>, cutoff: int) returns (left: map<string, seq<int>>)
      ensures left == FreshLists(m, cutoff)
    {
      left := m;
      var rest := m.Keys;
      while rest != {}
        invariant rest <= m.Keys && left == PartlySwept(m, rest, cutoff)
      {
        var k :| k in rest;
        var remaining := Recent(m[k], cutoff);
        PartlySweptNext(m, rest, cutoff, k);
        if |remaining| == 0 {
          left := left - {k};
        } else {
          left := left[k := remaining];
        }
        rest := rest - {k};
      }
    }

    /** cleanup. */
    method SweepAll(now: int)
      modifies this
      ensures Now() == Cleanup(old(Now()), now)
    {
      var cutoff := now - EXPIRY;
      pending := Sweep(pending, cutoff);
      used := Sweep(used, cutoff);
      rateLimits := Sweep(rateLimits, cutoff);
      authLimits := SweepLists(authLimits, cutoff);
    }
  }
}
