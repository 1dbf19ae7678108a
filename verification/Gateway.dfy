/** The gateway's rate limiting: one fixed-window counter per rule, client address and path prefix. */
module Gateway {
  import opened Common
  import opened FixedWindow

  /** The client address as read from the request, and the path. */
  datatype Request = Request(ip: string, path: string, at: Time, expireLost: bool)

  datatype Rule = Rule(limit: pos, seconds: pos)

  datatype Reply = Passed(limit: nat, remaining: nat) | TooMany(limit: nat, remaining: nat, retryAfter: int)

  const AUTH_WRITES := Rule(10, 900)
  const DEFAULT := Rule(120, 60)

  predicate IsAuthWrite(path: string) {
    || "/api/auth/login" <= path || "/api/auth/register" <= path
    || "/api/auth/forgot-password" <= path || "/api/auth/reset-password" <= path
  }

  /** The first rule whose pattern the path matches. */
  function RuleOf(req: Request): Rule {
    if IsAuthWrite(req.path) then AUTH_WRITES else DEFAULT
  }

  /** The path up to its third slash: its first three segments, the one before the leading slash being empty. */
  function Prefix(path: string, slashes: nat): string {
    if path == "" || (path[0] == '/' && slashes == 0) then ""
    else [path[0]] + Prefix(path[1..], if path[0] == '/' then slashes - 1 else slashes)
  }

  function Client(req: Request): string {
    req.ip + ":" + Prefix(req.path, 2)
  }

  function KeyOf(req: Request): string {
    (if IsAuthWrite(req.path) then "rl:gw:900:" else "rl:gw:60:") + Client(req)
  }

  /** The rule a key was made under can be read off the key. */
  function RuleOfKey(key: string): Rule {
    if |key| > 6 && key[6] == '9' then AUTH_WRITES else DEFAULT
  }

  lemma {:induction false} KeyHasRule(req: Request)
    ensures RuleOfKey(KeyOf(req)) == RuleOf(req)
  {
    var head := if IsAuthWrite(req.path) then "rl:gw:900:" else "rl:gw:60:";
    assert KeyOf(req)[6] == head[6];
  }

  /** Two requests share a counter exactly when they fall under one rule and their address and prefix spell the same. */
  lemma {:induction false} SameKeyIff(a: Request, b: Request)
    ensures KeyOf(a) == KeyOf(b) <==> RuleOf(a) == RuleOf(b) && Client(a) == Client(b)
  {
    KeyHasRule(a);
    KeyHasRule(b);
    var n := if IsAuthWrite(a.path) then 10 else 9;
    assert KeyOf(a)[n..] == Client(a);
    if RuleOf(a) == RuleOf(b) { assert KeyOf(b)[n..] == Client(b); }
  }

  /** Addresses without a slash keep clients apart. */
  lemma {:induction false} AddressesSeparate(a: Request, b: Request)
    requires '/' !in a.ip && '/' !in b.ip
    requires "/" <= a.path && "/" <= b.path
    ensures Client(a) == Client(b) <==> a.ip == b.ip && Prefix(a.path, 2) == Prefix(b.path, 2)
  {
    if Client(a) == Client(b) {
      SlashAt(a);
      SlashAt(b);
      if |a.ip| < |b.ip| { AddressNotShorter(a, b); } else if |b.ip| < |a.ip| { AddressNotShorter(b, a); }
      assert a.ip == Client(a)[..|a.ip|] == Client(b)[..|b.ip|] == b.ip;
      assert Prefix(a.path, 2) == Client(a)[|a.ip| + 1..];
      assert Prefix(b.path, 2) == Client(b)[|b.ip| + 1..];
    }
  }

  lemma {:induction false} SlashAt(req: Request)
    requires "/" <= req.path
    ensures |Client(req)| > |req.ip| + 1 && Client(req)[|req.ip| + 1] == '/'
    ensures Client(req)[|req.ip|] == ':' && Client(req)[..|req.ip|] == req.ip
  {
    assert Prefix(req.path, 2)[0] == '/';
  }

  lemma {:induction false} AddressNotShorter(a: Request, b: Request)
    requires '/' !in b.ip && "/" <= a.path && "/" <= b.path && |a.ip| < |b.ip|
    ensures Client(a) != Client(b)
  {
    SlashAt(a);
    SlashAt(b);
    var k := |a.ip| + 1;
    if k < |b.ip| {
      assert Client(b)[k] == b.ip[k];
    }
  }

  lemma {:induction false} PrefixCons(c: char, rest: string, slashes: nat)
    ensures Prefix([c] + rest, slashes) ==
      if c == '/' && slashes == 0 then ""
      else [c] + Prefix(rest, if c == '/' then slashes - 1 else slashes)
  {
    assert ([c] + rest)[1..] == rest;
  }

  /** An address field with a slash in it can spell another client's key. */
  lemma {:induction false} SlashesShareKeys(at: Time)
    ensures var a, b := Request("a:/p", "/x", at, false), Request("a", "/p:/x", at, false);
            a.ip != b.ip && KeyOf(a) == KeyOf(b)
  {
    var a, b := Request("a:/p", "/x", at, false), Request("a", "/p:/x", at, false);
    ShortPrefixes();
    assert Client(a) == "a:/p" + ":" + "/x" == "a:/p:/x";
    assert Client(b) == "a" + ":" + "/p:/x" == "a:/p:/x";
    SameKeyIff(a, b);
  }

  lemma {:induction false} ShortPrefixes()
    ensures Prefix("/x", 2) == "/x" && Prefix("/p:/x", 2) == "/p:/x"
  {
    PrefixCons('x', "", 1);
    PrefixCons('/', "x", 2);
    PrefixCons('x', "", 0);
    PrefixCons('/', "x", 1);
    PrefixCons(':', "/x", 1);
    PrefixCons('p', ":/x", 1);
    PrefixCons('/', "p:/x", 2);
    assert ['x'] + "" == "x" && ['/'] + "x" == "/x" && [':'] + "/x" == ":/x";
    assert ['p'] + ":/x" == "p:/x" && ['/'] + "p:/x" == "/p:/x";
  }

  // ---- Which addresses can share a counter ----

  function Slashes(text: string): nat {
    if text == "" then 0 else Slashes(text[1..]) + if text[0] == '/' then 1 else 0
  }

  lemma {:induction false} SlashesAppend(a: string, b: string)
    ensures Slashes(a + b) == Slashes(a) + Slashes(b)
    decreases |a|
  {
    if a == "" {
      assert a + b == b;
    } else {
      SlashesAppend(a[1..], b);
      assert (a + b)[1..] == a[1..] + b;
    }
  }

  lemma {:induction false} NoSlashIff(text: string)
    ensures Slashes(text) == 0 <==> '/' !in text
    decreases |text|
  {
    if text != "" {
      NoSlashIff(text[1..]);
      assert text == [text[0]] + text[1..];
    }
  }

  /** A prefix has no more slashes than asked for, and a path that has no more is its own prefix. */
  lemma {:induction false} PrefixSlashes(path: string, slashes: nat)
    ensures Slashes(Prefix(path, slashes)) <= slashes
    ensures Slashes(path) <= slashes ==> Prefix(path, slashes) == path
    decreases |path|
  {
    if path != "" && !(path[0] == '/' && slashes == 0) {
      var left := if path[0] == '/' then slashes - 1 else slashes;
      PrefixSlashes(path[1..], left);
      assert ([path[0]] + Prefix(path[1..], left))[1..] == Prefix(path[1..], left);
      assert [path[0]] + path[1..] == path;
    }
  }

  /** The prefix is the start of the path up to the slash after so many slashes, or all of it if it has no more. */
  lemma {:induction false} PrefixIs(path: string, slashes: nat)
    ensures var prefix := Prefix(path, slashes);
            && prefix <= path
            && (Slashes(path) <= slashes ==> prefix == path)
            && (Slashes(path) > slashes ==>
                  |prefix| < |path| && path[|prefix|] == '/' && Slashes(prefix) == slashes)
    decreases |path|
  {
    if path != "" && !(path[0] == '/' && slashes == 0) {
      var left := if path[0] == '/' then slashes - 1 else slashes;
      PrefixIs(path[1..], left);
      assert ([path[0]] + Prefix(path[1..], left))[1..] == Prefix(path[1..], left);
      assert [path[0]] + path[1..] == path;
    }
  }

  /** Some requests of the two addresses share a counter. */
  ghost predicate Collide(x: string, y: string) {
    exists a: Request, b: Request ::
      a.ip == x && b.ip == y && "/" <= a.path && "/" <= b.path && KeyOf(a) == KeyOf(b)
  }

  /** y is x, then a colon and a slash, then anything without a slash. */
  predicate Continues(x: string, y: string) {
    |y| >= |x| + 2 && y[..|x| + 2] == x + ":/" && '/' !in y[|x| + 2..]
  }

  /** Where two spellings of one text are split. */
  lemma {:induction false} Overlap(x: string, y: string, p: string, q: string)
    requires x + ":" + p == y + ":" + q && |x| < |y|
    ensures y == x + ":" + y[|x| + 1..] && p == y[|x| + 1..] + ":" + q
  {
    var text := x + ":" + p;
    assert y == text[..|y|] && text[|x|] == ':' && text[..|x|] == x;
    assert p == text[|x| + 1..] && y + ":" + q == y[..|x| + 1] + (y[|x| + 1..] + ":" + q);
    assert (y[..|x| + 1] + (y[|x| + 1..] + ":" + q))[|x| + 1..] == y[|x| + 1..] + ":" + q;
  }

  /** A text with two slashes leaves one for what comes before the last segment. */
  lemma {:induction false} OneSlashLeft(between: string, q: string)
    requires "/" <= between + ":" + q && "/" <= q && Slashes(between + ":" + q) <= 2
    ensures "/" <= between && '/' !in between[1..]
  {
    SlashesAppend(between + ":", q);
    SlashesAppend(between, ":");
    NoSlashIff(q);
    NoSlashIff(between[1..]);
  }

  lemma {:induction false} LongerContinues(a: Request, b: Request)
    requires "/" <= a.path && "/" <= b.path && Client(a) == Client(b) && |a.ip| < |b.ip|
    ensures Continues(a.ip, b.ip)
  {
    var p, q := Prefix(a.path, 2), Prefix(b.path, 2);
    PrefixSlashes(a.path, 2);
    Overlap(a.ip, b.ip, p, q);
    var between := b.ip[|a.ip| + 1..];
    OneSlashLeft(between, q);
    assert b.ip[|a.ip| + 2..] == between[1..];
  }

  lemma {:induction false} SlashInside(head: string, path: string)
    requires |head| > 5 && head[4] == '/' && forall i | 0 < i < |path| - 1 :: path[i] != '/'
    ensures !(head <= path)
  {
    assert |path| > 5 && path[4] != '/' ==> path[4] != head[4];
  }

  /** A path of one segment that ends in a colon and a slash. */
  function ColonPath(segment: string): string {
    "/" + segment + ":/"
  }

  lemma {:induction false} ColonPathIsDefault(segment: string)
    requires '/' !in segment
    ensures !IsAuthWrite(ColonPath(segment))
  {
    SlashInside("/api/auth/login", ColonPath(segment));
    SlashInside("/api/auth/register", ColonPath(segment));
    SlashInside("/api/auth/forgot-password", ColonPath(segment));
    SlashInside("/api/auth/reset-password", ColonPath(segment));
  }

  lemma {:induction false} ColonPathIsPrefix(segment: string)
    requires '/' !in segment
    ensures Prefix(ColonPath(segment), 2) == ColonPath(segment) && Prefix("/", 2) == "/"
  {
    SlashesAppend("/" + segment, ":/");
    SlashesAppend("/", segment);
    NoSlashIff(segment);
    assert Slashes("/") == 1 && Slashes(":/") == 1;
    PrefixSlashes(ColonPath(segment), 2);
    PrefixSlashes("/", 2);
  }

  lemma {:induction false} SameSpelling(x: string, segment: string)
    ensures x + ":" + ColonPath(segment) == x + ":/" + segment + ":" + "/"
  {
  }

  lemma {:induction false} ContinuesCollides(x: string, y: string)
    requires Continues(x, y)
    ensures Collide(x, y)
  {
    var segment := y[|x| + 2..];
    var a, b := Request(x, ColonPath(segment), 0, false), Request(y, "/", 0, false);
    ColonPathIsDefault(segment);
    ColonPathIsPrefix(segment);
    assert y == x + ":/" + segment;
    SameSpelling(x, segment);
    SameKeyIff(a, b);
    assert KeyOf(a) == KeyOf(b);
  }

  /** Two addresses share a counter for some paths exactly when they are equal or one continues the other. */
  lemma {:induction false} CollideIff(x: string, y: string)
    ensures Collide(x, y) <==> x == y || Continues(x, y) || Continues(y, x)
  {
    if Collide(x, y) {
      var a: Request, b: Request :|
        a.ip == x && b.ip == y && "/" <= a.path && "/" <= b.path && KeyOf(a) == KeyOf(b);
      SameKeyIff(a, b);
      if |x| < |y| {
        LongerContinues(a, b);
      } else if |y| < |x| {
        LongerContinues(b, a);
      } else {
        assert x == Client(a)[..|x|] == Client(b)[..|y|] == y;
      }
    }
    if x == y {
      var a := Request(x, "/", 0, false);
      assert KeyOf(a) == KeyOf(a);
    }
    if Continues(x, y) { ContinuesCollides(x, y); }
    if Continues(y, x) {
      ContinuesCollides(y, x);
      var b: Request, a: Request :|
        b.ip == y && a.ip == x && "/" <= b.path && "/" <= a.path && KeyOf(b) == KeyOf(a);
      assert KeyOf(a) == KeyOf(b);
    }
  }

  /** A path is cut before its third slash. */
  lemma {:induction false} PrefixCuts(head: string, rest: string)
    ensures Prefix(head + "/" + rest, Slashes(head)) == head
    decreases |head|
  {
    var path := head + "/" + rest;
    if head == "" {
      assert path[0] == '/';
    } else {
      PrefixCuts(head[1..], rest);
      assert path[1..] == head[1..] + "/" + rest;
      assert [head[0]] + head[1..] == head;
    }
  }

  lemma {:induction false} AuthWritePrefix(path: string)
    requires IsAuthWrite(path)
    ensures Prefix(path, 2) == "/api/auth"
  {
    SlashesAppend("/api", "/auth");
    SlashesAppend("/", "api");
    SlashesAppend("/", "auth");
    NoSlashIff("api");
    NoSlashIff("auth");
    assert "/" + "api" == "/api" && "/" + "auth" == "/auth" && "/api" + "/auth" == "/api/auth";
    assert Slashes("/") == 1;
    AuthWriteStarts(path);
    PrefixCuts("/api/auth", path[10..]);
  }

  lemma {:induction false} AuthWriteStarts(path: string)
    requires IsAuthWrite(path)
    ensures |path| >= 10 && path == "/api/auth" + "/" + path[10..]
  {
    assert path[..10] == "/api/auth/" == "/api/auth" + "/";
  }

  /** Under the rule for logins and the like, an address has one counter, whatever the address is. */
  lemma {:induction false} AuthWritesByAddress(a: Request, b: Request)
    requires IsAuthWrite(a.path) && IsAuthWrite(b.path)
    ensures KeyOf(a) == KeyOf(b) <==> a.ip == b.ip
  {
    SameKeyIff(a, b);
    AuthWritePrefix(a.path);
    AuthWritePrefix(b.path);
    SameEnd(a.ip, b.ip, ":/api/auth");
    assert Client(a) == a.ip + ":/api/auth" && Client(b) == b.ip + ":/api/auth";
  }

  lemma {:induction false} SameEnd(x: string, y: string, end: string)
    ensures x + end == y + end <==> x == y
  {
    if x + end == y + end {
      assert |x + end| == |y + end|;
      assert x == (x + end)[..|x|] == (y + end)[..|y|] == y;
    }
  }

  function CounterOf(counters: map<string, Counter>, key: string): Counter {
    if key in counters then counters[key] else Absent
  }

  predicate Within(counter: Counter, limit: nat) {
    counter.Counting? && counter.count <= limit
  }

  function UseNext(counters: map<string, Counter>, req: Request): map<string, Counter> {
    var key := KeyOf(req);
    counters[key := IncrementNext(CounterOf(counters, key), Millis(RuleOf(req).seconds), req.at, req.expireLost)]
  }

  lemma {:induction false} KeySpelled(req: Request)
    ensures var head := if IsAuthWrite(req.path) then "rl:gw:900:" else "rl:gw:60:";
            KeyOf(req) == head + req.ip + ":" + Prefix(req.path, 2)
  {
    var head := if IsAuthWrite(req.path) then "rl:gw:900:" else "rl:gw:60:";
    assert head + (req.ip + ":" + Prefix(req.path, 2)) == head + req.ip + ":" + Prefix(req.path, 2);
  }

  class RateLimitMiddleware {
    var counters: map<string, Counter>

    constructor ()
      ensures counters == map[]
    {
      counters := map[];
    }

    method Use(req: Request) returns (reply: Reply)
      modifies this
      ensures counters == UseNext(old(counters), req)
      ensures var auth := "/api/auth/login" <= req.path || "/api/auth/register" <= req.path ||
                "/api/auth/forgot-password" <= req.path || "/api/auth/reset-password" <= req.path;
              var key := (if auth then "rl:gw:900:" else "rl:gw:60:") + req.ip + ":" + Prefix(req.path, 2);
              var live := key in old(counters) && old(counters)[key].Counting? &&
                (old(counters)[key].expiresAt.None? || req.at < old(counters)[key].expiresAt.value);
              && reply.limit == (if auth then 10 else 120)
              && counters == old(counters)[key :=
                   if live then Counting(old(counters)[key].count + 1, old(counters)[key].expiresAt)
                   else Counting(1, if req.expireLost then None
                                    else Some(req.at + if auth then 900 * 1000 else 60 * 1000))]
              && (reply.Passed? <==> counters[key].count <= reply.limit)
      ensures reply.limit == RuleOf(req).limit
      ensures reply.Passed? <==> Within(counters[KeyOf(req)], reply.limit)
      ensures reply.remaining == if reply.Passed? then reply.limit - counters[KeyOf(req)].count else 0
      ensures reply.TooMany? ==> reply.retryAfter > 0
      ensures reply.TooMany? && counters[KeyOf(req)].expiresAt.Some? ==>
        ToldToWait(reply.retryAfter, counters[KeyOf(req)].expiresAt.value - req.at, RuleOf(req).seconds)
    {
      var rule, key := RuleOf(req), KeyOf(req);
      KeySpelled(req);
      var before := CounterOf(counters, key);
      var ttl := Ttl(before, req.at);
      var counted := match Live(before, req.at)
        case Absent => Counting(1, None)
        case Counting(count, expiresAt) => Counting(count + 1, expiresAt);
      if counted.count == 1 && !req.expireLost {
        counted := Counting(1, Some(req.at + Millis(rule.seconds)));
      }
      counters := counters[key := counted];
      if counted.count > rule.limit {
        return TooMany(rule.limit, 0, if ttl > 0 then ttl else rule.seconds);
      }
      return Passed(rule.limit, rule.limit - counted.count);
    }
  }

  // ---- Any mix of requests on any keys ----

  function CountersAfter(reqs: seq<Request>): map<string, Counter> {
    if reqs == [] then map[] else UseNext(CountersAfter(reqs[..|reqs| - 1]), reqs[|reqs| - 1])
  }

  /** The requests of one key, as calls of its counter. */
  function CallsOf(reqs: seq<Request>, key: string): seq<Call> {
    if reqs == [] then []
    else
      var last := reqs[|reqs| - 1];
      CallsOf(reqs[..|reqs| - 1], key) + if KeyOf(last) == key then [Call(last.at, last.expireLost)] else []
  }

  lemma {:induction false} CounterAfterPrefix(calls: seq<Call>, more: seq<Call>, window: nat, k: nat)
    requires k <= |calls|
    ensures CounterAfter(calls + more, window, k) == CounterAfter(calls, window, k)
    decreases k
  {
    if k > 0 { CounterAfterPrefix(calls, more, window, k - 1); }
  }

  /** Keys do not interfere: each counter is what its own requests alone make of it. */
  lemma {:induction false} KeysAreIndependent(reqs: seq<Request>, key: string)
    ensures var calls := CallsOf(reqs, key);
            CounterOf(CountersAfter(reqs), key) == CounterAfter(calls, Millis(RuleOfKey(key).seconds), |calls|)
    decreases |reqs|
  {
    if reqs != [] {
      var before, last := reqs[..|reqs| - 1], reqs[|reqs| - 1];
      KeysAreIndependent(before, key);
      if KeyOf(last) == key {
        var calls := CallsOf(before, key);
        KeyHasRule(last);
        CounterAfterPrefix(calls, [Call(last.at, last.expireLost)], Millis(RuleOfKey(key).seconds), |calls|);
      } else {
        assert CallsOf(before, key) + [] == CallsOf(before, key);
      }
    }
  }

  /** How many requests of a key were let through in [from, from + window). */
  function PassedIn(reqs: seq<Request>, key: string, from: Time): nat {
    if reqs == [] then 0
    else
      var last, rule := reqs[|reqs| - 1], RuleOfKey(key);
      PassedIn(reqs[..|reqs| - 1], key, from) +
      if KeyOf(last) == key && Within(CountersAfter(reqs)[key], rule.limit) &&
         from <= last.at < from + Millis(rule.seconds)
      then 1 else 0
  }

  lemma {:induction false} AdmittedInPrefix(
    calls: seq<Call>, more: seq<Call>, limit: nat, window: nat, from: Time, hi: nat)
    requires hi <= |calls|
    ensures AdmittedIn(calls + more, limit, window, from, 0, hi) == AdmittedIn(calls, limit, window, from, 0, hi)
    decreases hi
  {
    if hi > 0 {
      AdmittedInPrefix(calls, more, limit, window, from, hi - 1);
      CounterAfterPrefix(calls, more, window, hi);
    }
  }

  lemma {:induction false} PassedAreAdmitted(reqs: seq<Request>, key: string, from: Time)
    ensures var calls, rule := CallsOf(reqs, key), RuleOfKey(key);
            PassedIn(reqs, key, from) == AdmittedIn(calls, rule.limit, Millis(rule.seconds), from, 0, |calls|)
    decreases |reqs|
  {
    if reqs != [] {
      var before, last, rule := reqs[..|reqs| - 1], reqs[|reqs| - 1], RuleOfKey(key);
      PassedAreAdmitted(before, key, from);
      if KeyOf(last) == key {
        var calls := CallsOf(before, key);
        KeysAreIndependent(reqs, key);
        AdmittedInPrefix(calls, [Call(last.at, last.expireLost)], rule.limit, Millis(rule.seconds), from, |calls|);
      } else {
        assert CallsOf(before, key) + [] == CallsOf(before, key);
      }
    }
  }

  predicate ClockRuns(reqs: seq<Request>) {
    forall i, j | 0 <= i < j < |reqs| :: reqs[i].at <= reqs[j].at
  }

  lemma {:induction false} CallsAreOrdered(reqs: seq<Request>, key: string)
    requires ClockRuns(reqs)
    ensures Ordered(CallsOf(reqs, key))
    ensures forall i | 0 <= i < |CallsOf(reqs, key)| ::
              exists j | 0 <= j < |reqs| :: CallsOf(reqs, key)[i].at == reqs[j].at
    decreases |reqs|
  {
    if reqs != [] {
      var n := |reqs| - 1;
      CallsAreOrdered(reqs[..n], key);
      forall i | 0 <= i < |CallsOf(reqs, key)|
        ensures exists j | 0 <= j < |reqs| :: CallsOf(reqs, key)[i].at == reqs[j].at
      {
        if i < |CallsOf(reqs[..n], key)| {
          var j :| 0 <= j < n && CallsOf(reqs[..n], key)[i].at == reqs[..n][j].at;
          assert CallsOf(reqs, key)[i].at == reqs[j].at;
        } else {
          assert CallsOf(reqs, key)[i].at == reqs[n].at;
        }
      }
    }
  }

  /** Whatever else the gateway serves, a key gets fewer than twice its limit through in any stretch of the window. */
  lemma {:induction false} GatewayBound(reqs: seq<Request>, key: string, from: Time)
    requires ClockRuns(reqs)
    ensures PassedIn(reqs, key, from) < 2 * RuleOfKey(key).limit
  {
    var calls, rule := CallsOf(reqs, key), RuleOfKey(key);
    CallsAreOrdered(reqs, key);
    PassedAreAdmitted(reqs, key, from);
    TwiceTheLimit(calls, rule.limit, Millis(rule.seconds), from, |calls|);
  }

  /** Neither rule is the sliding window it is commented as. */
  lemma {:induction false} RulesAreNotSliding()
    ensures !Sliding(AUTH_WRITES.limit, Millis(AUTH_WRITES.seconds)) && !Sliding(DEFAULT.limit, Millis(DEFAULT.seconds))
  {
    SlidingIff(AUTH_WRITES.limit, AUTH_WRITES.seconds);
    SlidingIff(DEFAULT.limit, DEFAULT.seconds);
  }
}
