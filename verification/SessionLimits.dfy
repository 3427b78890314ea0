/** The runs on which sessions go wrong, and with them the exact condition under which none does. */
module SessionLimits {
  import opened SessionSteps
  import opened SessionRuns

  const Fine := Answer(0, true, true)
  const Smooth := LookupEnv(Fine, 0, Fine, Fine, Fine, 0)
  const Quick := LoginEnv(Fine, 0, Fine, Fine)

  lemma Extend(states: seq<State>, ops: seq<Op>, op: Op, rules: Rules) returns (states': seq<State>, ops': seq<Op>)
    requires IsRun(states, ops, rules) && Allowed(states[|ops|], op, rules)
    ensures IsRun(states', ops', rules) && ops' == ops + [op] && states' == states + [Step(states[|ops|], rules.w, op)]
  {
    states', ops' := states + [Step(states[|ops|], rules.w, op)], ops + [op];
  }

  ghost predicate TwoTokens(rules: Rules, a: Token, b: Token) {
    AccountsOk(rules.w) && TokensOk(rules) && a in rules.issued && b in rules.issued && rules.w.fold(a) != rules.w.fold(b)
  }

  /** A table with one session, at time zero. */
  function OneRow(w: World, token: Token, user: nat, expiresAt: int): State {
    State(map[w.fold(token) := Row(token, user, expiresAt)], map[], 0)
  }

  lemma Starts(rules: Rules, token: Token, user: nat, expiresAt: int)
    requires token in rules.issued && user in rules.w.names && expiresAt <= TTL
    ensures IsRun([OneRow(rules.w, token, user, expiresAt)], [], rules)
  {
    var s := OneRow(rules.w, token, user, expiresAt);
    assert RowOk(s, rules, rules.w.fold(token));
  }

  /** When a full-length session found in the table at time zero expires in the cache: refreshed if it looks old. */
  function CachedUntil(w: World): int { if TTL - w.skew <= THRESHOLD then w.skew + TTL else TTL }

  lemma FoundInTable(s: State, w: World, token: Token)
    requires AccountsOk(w) && w.skew < TTL && token != "" && token !in s.cache && s.clock == 0
    requires var k := w.fold(token); k in s.table && s.table[k].user in w.names && s.table[k].expiresAt == TTL
    ensures var name := NameOf(w, s.table[w.fold(token)].user);
            Lookup(s, w, token, Smooth) == Found(s.(cache := s.cache[token := Entry(name, CachedUntil(w))]), true, name)
  {
    var k := w.fold(token);
    var row, name := s.table[k], NameOf(w, s.table[k].user);
    var s2 := s.(cache := s.cache[token := Entry(name, TTL)]);
    assert Forget(s, token) == s && After(s, 0) == s;
    if TTL - w.skew <= THRESHOLD {
      assert s2.table[k := s2.table[k].(expiresAt := TTL)] == s2.table;
      assert Refresh(s2, w, token, name, Fine, 0).0 == Cached(s2, w, token, name);
      assert s2.cache[token := Entry(name, w.skew + TTL)] == s.cache[token := Entry(name, w.skew + TTL)];
    }
  }

  /** A cached session far from its expiry is accepted without a question to the table. */
  lemma Trusted(s: State, w: World, token: Token)
    requires token != "" && token in s.cache && s.cache[token].name != "" && s.cache[token].expiresAt - s.clock - w.skew > THRESHOLD
    ensures Lookup(s, w, token, Smooth) == Found(s, true, s.cache[token].name)
  {
  }

  // ---------- Clocks ----------

  /** A cache write that comes too late: the cache vouches for the session when its row has expired. */
  lemma LagBreaksLookups(rules: Rules, name: string, token: Token) returns (states: seq<State>, ops: seq<Op>)
    requires AccountsOk(rules.w) && TokensOk(rules) && name in rules.spellings && name in rules.w.ids && token in rules.issued
    requires rules.lag > THRESHOLD
    ensures IsRun(states, ops, rules) && |ops| == 3 && ops[2] == LookupOp(token, Smooth)
    ensures !LookupSound(states[2], rules.w, token, Smooth)
  {
    var w, k, user := rules.w, rules.w.fold(token), rules.w.ids[name];
    var env := Quick.(lag := THRESHOLD + 1);
    states, ops := [State(map[], map[], 0)], [];
    states, ops := Extend(states, ops, LoginOp(name, true, token, env), rules);
    var s1 := State(map[k := Row(token, user, TTL)], map[token := Entry(name, THRESHOLD + 1 + w.skew + TTL)], THRESHOLD + 1);
    LoginAlone(w, name, token, env);
    assert states[1] == s1;
    states, ops := Extend(states, ops, WaitOp(TTL - THRESHOLD - 1), rules);
    assert states[2] == s1.(clock := TTL);
    Trusted(states[2], w, token);
    states, ops := Extend(states, ops, LookupOp(token, Smooth), rules);
  }

  /** A login on an empty table. */
  lemma LoginAlone(w: World, name: string, token: Token, env: LoginEnv)
    requires token != "" && name != "" && name in w.ids && env == Quick.(lag := env.lag)
    ensures Login(State(map[], map[], 0), w, name, true, token, env)
            == (State(map[w.fold(token) := Row(token, w.ids[name], TTL)], map[token := Entry(name, env.lag + w.skew + TTL)], env.lag), true)
  {
    var k, row, entry := w.fold(token), Row(token, w.ids[name], TTL), Entry(name, env.lag + w.skew + TTL);
    assert Persist(State(map[], map[], 0), w, token, name, Fine, env.lag)
        == (State(map[k := row], map[token := entry], env.lag), true);
    assert WithoutName(map[token := entry], name, token) == map[token := entry];
    assert WithoutUser(map[k := row], w, name, token) == map[k := row];
  }

  /** A process whose clock is too far behind keeps a session that it found in the table longer than the table does. */
  lemma SkewBreaksLookups(rules: Rules, user: nat, token: Token) returns (states: seq<State>, ops: seq<Op>)
    requires AccountsOk(rules.w) && TokensOk(rules) && user in rules.w.names && token in rules.issued && rules.w.skew < -THRESHOLD
    ensures IsRun(states, ops, rules) && |ops| == 3 && ops[2] == LookupOp(token, Smooth)
    ensures !LookupSound(states[2], rules.w, token, Smooth)
  {
    var w, s := rules.w, OneRow(rules.w, token, user, 1);
    Starts(rules, token, user, 1);
    states, ops := [s], [];
    assert Forget(s, token) == s && After(s, 0) == s;
    states, ops := Extend(states, ops, LookupOp(token, Smooth), rules);
    assert states[1] == s.(cache := map[token := Entry(w.names[user], 1)]);
    states, ops := Extend(states, ops, WaitOp(1), rules);
    Trusted(states[2], w, token);
    states, ops := Extend(states, ops, LookupOp(token, Smooth), rules);
  }

  // ---------- Spellings of names ----------

  /** The state behind a lookup and a login under another spelling: the old token is cached but has no row. */
  function OldTokenCached(w: World, name: string, user: nat, old': Token, new': Token): State {
    State(map[w.fold(new') := Row(new', user, TTL)],
          map[old' := Entry(NameOf(w, user), CachedUntil(w)), new' := Entry(name, w.skew + TTL)], 0)
  }

  lemma OtherSpelling(rules: Rules, name: string, a: Token, b: Token) returns (states: seq<State>, ops: seq<Op>)
    requires TwoTokens(rules, a, b) && rules.w.skew < TTL
    requires name in rules.spellings && name in rules.w.ids && !Registered(rules.w, name)
    ensures IsRun(states, ops, rules) && |ops| == 2 && ops[1] == LoginOp(name, true, b, Quick)
    ensures Login(states[1], rules.w, name, true, b, Quick) == (states[2], true)
    ensures states[2] == OldTokenCached(rules.w, name, rules.w.ids[name], a, b)
  {
    var w, user := rules.w, rules.w.ids[name];
    Starts(rules, a, user, TTL);
    states, ops := [OneRow(w, a, user, TTL)], [];
    FoundInTable(states[0], w, a);
    states, ops := Extend(states, ops, LookupOp(a, Smooth), rules);
    LoginBeside(w, name, a, b);
    states, ops := Extend(states, ops, LoginOp(name, true, b, Quick), rules);
  }

  lemma LoginBeside(w: World, name: string, a: Token, b: Token)
    requires AccountsOk(w) && a != "" && b != "" && w.fold(a) != w.fold(b) && name in w.ids && !Registered(w, name)
    ensures var user := w.ids[name];
            var s := State(map[w.fold(a) := Row(a, user, TTL)], map[a := Entry(NameOf(w, user), CachedUntil(w))], 0);
            Login(s, w, name, true, b, Quick) == (OldTokenCached(w, name, user, a, b), true)
  {
    var user := w.ids[name];
    var s := State(map[w.fold(a) := Row(a, user, TTL)], map[a := Entry(NameOf(w, user), CachedUntil(w))], 0);
    var both := s.table[w.fold(b) := Row(b, user, TTL)];
    var cache := s.cache[b := Entry(name, w.skew + TTL)];
    assert Persist(s, w, b, name, Fine, 0) == (State(both, cache, 0), true);
    assert WithoutName(cache, name, b) == cache;
    assert WithoutUser(both, w, name, b) == map[w.fold(b) := Row(b, user, TTL)];
  }

  /** A login under another spelling than the registered one leaves an older cached token in force, without a row. */
  lemma SpellingBreaksLogins(rules: Rules, name: string, a: Token, b: Token) returns (states: seq<State>, ops: seq<Op>)
    requires TwoTokens(rules, a, b) && rules.w.skew < TTL
    requires name in rules.spellings && name in rules.w.ids && !Registered(rules.w, name)
    ensures IsRun(states, ops, rules) && |ops| == 3
    ensures ops[1] == LoginOp(name, true, b, Quick) && !Keeps(states[1], rules.w, ops[1])
    ensures ops[2] == LookupOp(a, Smooth) && rules.w.fold(a) !in states[2].table && !LookupSound(states[2], rules.w, a, Smooth)
  {
    states, ops := OtherSpelling(rules, name, a, b);
    assert CachedFor(states[2], rules.w, a, rules.w.ids[name]);
    assert Holds(states[2], rules.w, rules.w.fold(a), rules.w.ids[name]);
    Trusted(states[2], rules.w, a);
    states, ops := Extend(states, ops, LookupOp(a, Smooth), rules);
  }

  /** Logging out everywhere misses a token that is cached under another spelling. */
  lemma SpellingBreaksLogouts(rules: Rules, name: string, a: Token, b: Token) returns (states: seq<State>, ops: seq<Op>)
    requires TwoTokens(rules, a, b) && rules.w.skew < TTL
    requires name in rules.spellings && name in rules.w.ids && !Registered(rules.w, name)
    ensures IsRun(states, ops, rules) && |ops| == 3
    ensures ops[2] == LogoutAllOp(b, Smooth, Fine) && !Keeps(states[2], rules.w, ops[2])
  {
    states, ops := OtherSpelling(rules, name, a, b);
    var s, w, user := states[2], rules.w, rules.w.ids[name];
    Trusted(s, w, b);
    assert CachedFor(Step(s, w, LogoutAllOp(b, Smooth, Fine)), w, a, user);
    assert Holds(Step(s, w, LogoutAllOp(b, Smooth, Fine)), w, w.fold(a), user);
    states, ops := Extend(states, ops, LogoutAllOp(b, Smooth, Fine), rules);
  }

  /** Two logins under two spellings of one account: the first token is accepted although its row is gone. */
  lemma TwoLogins(rules: Rules, first: string, second: string, a: Token, b: Token) returns (states: seq<State>, ops: seq<Op>)
    requires TwoTokens(rules, a, b)
    requires first in rules.spellings && second in rules.spellings && first != second
    requires first in rules.w.ids && second in rules.w.ids && rules.w.ids[first] == rules.w.ids[second]
    ensures IsRun(states, ops, rules) && |ops| == 3 && ops[0] == LoginOp(first, true, a, Quick) && ops[1] == LoginOp(second, true, b, Quick)
    ensures ops[2] == LookupOp(a, Smooth) && !LookupSound(states[2], rules.w, a, Smooth)
  {
    var w, user := rules.w, rules.w.ids[first];
    states, ops := [State(map[], map[], 0)], [];
    LoginAlone(w, first, a, Quick);
    states, ops := Extend(states, ops, LoginOp(first, true, a, Quick), rules);
    SecondLogin(w, first, second, a, b);
    states, ops := Extend(states, ops, LoginOp(second, true, b, Quick), rules);
    Trusted(states[2], w, a);
    states, ops := Extend(states, ops, LookupOp(a, Smooth), rules);
  }

  lemma SecondLogin(w: World, first: string, second: string, a: Token, b: Token)
    requires AccountsOk(w) && a != "" && b != "" && w.fold(a) != w.fold(b) && first != second
    requires first in w.ids && second in w.ids && w.ids[first] == w.ids[second]
    ensures var user, until := w.ids[first], w.skew + TTL;
            Login(State(map[w.fold(a) := Row(a, user, TTL)], map[a := Entry(first, until)], 0), w, second, true, b, Quick)
            == (State(map[w.fold(b) := Row(b, user, TTL)], map[a := Entry(first, until), b := Entry(second, until)], 0), true)
  {
    var user, until := w.ids[first], w.skew + TTL;
    var s := State(map[w.fold(a) := Row(a, user, TTL)], map[a := Entry(first, until)], 0);
    var both, cache := s.table[w.fold(b) := Row(b, user, TTL)], s.cache[b := Entry(second, until)];
    assert Persist(s, w, b, second, Fine, 0) == (State(both, cache, 0), true);
    assert WithoutName(cache, second, b) == cache;
    assert WithoutUser(both, w, second, b) == map[w.fold(b) := Row(b, user, TTL)];
  }

  // ---------- Spellings of tokens ----------

  /** A token that was also presented in another spelling: after its logout the other spelling is still accepted. */
  lemma TokenSpellingBreaksLogouts(rules: Rules, user: nat, token: Token, other: Token) returns (states: seq<State>, ops: seq<Op>)
    requires AccountsOk(rules.w) && TokensOk(rules) && rules.w.skew < TTL && user in rules.w.names && token in rules.issued
    requires other in rules.presented && other != "" && other != token && rules.w.fold(other) == rules.w.fold(token)
    ensures IsRun(states, ops, rules) && |ops| == 3 && ops[0] == LookupOp(other, Smooth)
    ensures ops[1] == LogoutOp(token, Smooth, Fine) && !Keeps(states[1], rules.w, ops[1])
    ensures ops[2] == LookupOp(other, Smooth) && states[2].table == map[] && !LookupSound(states[2], rules.w, other, Smooth)
  {
    var w, name := rules.w, rules.w.names[user];
    Starts(rules, token, user, TTL);
    states, ops := [OneRow(w, token, user, TTL)], [];
    FoundInTable(states[0], w, other);
    states, ops := Extend(states, ops, LookupOp(other, Smooth), rules);
    FoundInTable(states[1], w, token);
    states, ops := Extend(states, ops, LogoutOp(token, Smooth, Fine), rules);
    assert states[2] == State(map[], map[other := Entry(name, CachedUntil(w))], 0);
    Trusted(states[2], w, other);
    states, ops := Extend(states, ops, LookupOp(other, Smooth), rules);
  }

  // ---------- Overlapping requests ----------

  /** Two logins of one account at once: the later one deletes the row of the earlier, which is cached only then. */
  lemma OverlapBreaksLookups(rules: Rules, name: string, a: Token, b: Token) returns (states: seq<State>, ops: seq<Op>)
    requires TwoTokens(rules, a, b) && rules.overlap && name in rules.spellings && name in rules.w.ids
    ensures IsRun(states, ops, rules) && |ops| == 2 && ops[1] == LookupOp(a, Smooth)
    ensures states[1].table == map[] && !LookupSound(states[1], rules.w, a, Smooth)
  {
    var w, user := rules.w, rules.w.ids[name];
    var op := OverlapOp(name, a, Quick, LoginOp(name, true, b, Quick));
    states, ops := [State(map[], map[], 0)], [];
    var s1 := State(map[w.fold(a) := Row(a, user, TTL)], map[], 0);
    assert UpsertRow(states[0], w, a, name, Fine) == s1;
    Overtaken(w, name, a, b);
    states, ops := Extend(states, ops, op, rules);
    Trusted(states[1], w, a);
    states, ops := Extend(states, ops, LookupOp(a, Smooth), rules);
  }

  lemma Overtaken(w: World, name: string, a: Token, b: Token)
    requires AccountsOk(w) && a != "" && b != "" && w.fold(a) != w.fold(b) && name in w.ids
    ensures Step(State(map[], map[], 0), w, OverlapOp(name, a, Quick, LoginOp(name, true, b, Quick)))
            == State(map[], map[a := Entry(name, w.skew + TTL)], 0)
  {
    var user, entry := w.ids[name], Entry(name, w.skew + TTL);
    var s1 := State(map[w.fold(a) := Row(a, user, TTL)], map[], 0);
    assert UpsertRow(State(map[], map[], 0), w, a, name, Fine) == s1;
    var both := s1.table[w.fold(b) := Row(b, user, TTL)];
    assert Persist(s1, w, b, name, Fine, 0) == (State(both, map[b := entry], 0), true);
    assert WithoutName(map[b := entry], name, b) == map[b := entry];
    assert WithoutUser(both, w, name, b) == map[w.fold(b) := Row(b, user, TTL)];
    var s2 := State(map[w.fold(b) := Row(b, user, TTL)], map[b := entry], 0);
    assert Step(s1, w, LoginOp(name, true, b, Quick)) == s2;
    assert Store(s2, w, a, name, Fine, 0) == (s2.(cache := s2.cache[a := entry]), true);
    assert WithoutName(s2.cache[a := entry], name, a) == map[a := entry];
    assert WithoutUser(s2.table, w, name, a) == map[];
  }

  // ---------- Exactly when all promises hold ----------

  /**
   All promises hold on all runs exactly when requests do not overlap, cache writes follow their table writes
   within the refresh threshold, the process's clock is at most the threshold behind, and login names are spelled
   as registered and tokens as issued.  Somebody can log in, there are two tokens, and the process's clock is
   less than a session's lifetime ahead; otherwise it would refuse every session it finds in the table.
   */
  lemma SafeIff(rules: Rules, name: string, a: Token, b: Token)
    requires TwoTokens(rules, a, b) && rules.w.skew < TTL && name in rules.spellings && name in rules.w.ids
    ensures Safe(rules) <==> Trustworthy(rules)
  {
    if Trustworthy(rules) {
      forall states: seq<State>, ops: seq<Op>, i: nat | IsRun(states, ops, rules) && i < |ops|
        ensures Keeps(states[i], rules.w, ops[i])
      {
        RunInv(states, ops, rules, i);
        StepKeeps(states[i], ops[i], rules);
      }
    } else {
      var states, ops, i := BrokenRun(rules, name, a, b);
    }
  }

  lemma BrokenRun(rules: Rules, name: string, a: Token, b: Token) returns (states: seq<State>, ops: seq<Op>, i: nat)
    requires TwoTokens(rules, a, b) && rules.w.skew < TTL && name in rules.spellings && name in rules.w.ids
    requires !Trustworthy(rules)
    ensures IsRun(states, ops, rules) && i < |ops| && !Keeps(states[i], rules.w, ops[i])
  {
    var user := rules.w.ids[name];
    if rules.overlap {
      states, ops := OverlapBreaksLookups(rules, name, a, b);
      i := 1;
    } else if rules.lag > THRESHOLD {
      states, ops := LagBreaksLookups(rules, name, a);
      i := 2;
    } else if rules.w.skew < -THRESHOLD {
      states, ops := SkewBreaksLookups(rules, user, a);
      i := 2;
    } else if !NamesAsRegistered(rules) {
      var n :| n in rules.spellings && n in rules.w.ids && !Registered(rules.w, n);
      states, ops := SpellingBreaksLogins(rules, n, a, b);
      i := 1;
    } else {
      var p, t :| p in rules.presented && t in rules.issued && p != "" && rules.w.fold(p) == rules.w.fold(t) && p != t;
      states, ops := TokenSpellingBreaksLogouts(rules, user, t, p);
      i := 1;
    }
  }
}
