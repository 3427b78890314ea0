/** When the session cache can be trusted: an exact condition over all runs. */
module SessionRuns {
  import opened SessionSteps

  // ---------- The condition ----------

  /** The spelling is the registered one. */
  predicate Registered(w: World, name: string) {
    name in w.ids && w.ids[name] in w.names && name == w.names[w.ids[name]]
  }

  ghost predicate NamesAsRegistered(rules: Rules) {
    forall n :: n in rules.spellings && n in rules.w.ids ==> Registered(rules.w, n)
  }

  /** Nobody presents another spelling of an issued token. */
  ghost predicate TokensAsIssued(rules: Rules) {
    forall p, t :: p in rules.presented && t in rules.issued && p != "" && rules.w.fold(p) == rules.w.fold(t) ==> p == t
  }

  ghost predicate Trustworthy(rules: Rules) {
    && !rules.overlap && rules.lag <= THRESHOLD && -THRESHOLD <= rules.w.skew
    && NamesAsRegistered(rules) && TokensAsIssued(rules)
  }

  // ---------- The invariant ----------

  /**
   A cached session is backed by a row that expires, on the process's clock, at most a threshold earlier, or is
   itself due for a refresh.
   */
  predicate Backed(s: State, w: World, t: Token, entry: Entry) {
    var k := w.fold(t);
    || (k in s.table && RowOf(w, entry.name, s.table[k]) && entry.expiresAt <= s.table[k].expiresAt + w.skew + THRESHOLD)
    || entry.expiresAt <= s.clock + w.skew + THRESHOLD
  }

  ghost predicate EntryOk(s: State, rules: Rules, t: Token)
    requires t in s.cache
  {
    t in rules.issued && Registered(rules.w, s.cache[t].name) && Backed(s, rules.w, t, s.cache[t])
  }

  ghost predicate Inv(s: State, rules: Rules) {
    AccountsOk(rules.w) && RowsOk(s, rules) && forall t :: t in s.cache ==> EntryOk(s, rules, t)
  }

  /** A presented token that is not cached has no cached variants either. */
  lemma NoVariants(s: State, rules: Rules, token: Token)
    requires Inv(s, rules) && TokensAsIssued(rules) && token in rules.presented && token != "" && token !in s.cache
    ensures Uncached(s, rules.w, rules.w.fold(token))
  {
    forall t | t in s.cache ensures rules.w.fold(t) != rules.w.fold(token) { assert EntryOk(s, rules, t); }
  }

  /** The table may change as long as every cached session stays backed. */
  lemma TableChange(s: State, s': State, rules: Rules)
    requires Inv(s, rules) && RowsOk(s', rules) && s'.clock >= s.clock && s'.cache.Keys <= s.cache.Keys
    requires forall t :: t in s'.cache ==>
               s'.cache[t] == s.cache[t] && (Backed(s, rules.w, t, s.cache[t]) ==> Backed(s', rules.w, t, s.cache[t]))
    ensures Inv(s', rules)
  {
    forall t | t in s'.cache ensures EntryOk(s', rules, t) { assert EntryOk(s, rules, t); }
  }

  lemma CachedKeeps(s: State, rules: Rules, token: Token, entry: Entry)
    requires Inv(s, rules) && token in rules.issued && Registered(rules.w, entry.name) && Backed(s, rules.w, token, entry)
    ensures Inv(s.(cache := s.cache[token := entry]), rules)
  {
    var s' := s.(cache := s.cache[token := entry]);
    forall k | k in s'.table ensures RowOk(s', rules, k) { assert RowOk(s, rules, k); }
    forall t | t in s'.cache ensures EntryOk(s', rules, t) { assert t != token ==> EntryOk(s, rules, t); }
  }

  lemma UpsertKeeps(s: State, rules: Rules, token: Token, name: string, a: Answer)
    requires Inv(s, rules) && token in rules.issued && Fresh(s, rules.w, token)
    ensures Inv(UpsertRow(s, rules.w, token, name, a), rules)
  {
    var s' := UpsertRow(s, rules.w, token, name, a);
    forall k | k in s'.table ensures RowOk(s', rules, k) { assert k in s.table ==> RowOk(s, rules, k); }
    TableChange(s, s', rules);
  }

  lemma RefreshRowKeeps(s: State, rules: Rules, token: Token, name: string, a: Answer)
    requires Inv(s, rules)
    ensures Inv(RefreshRow(s, rules.w, token, name, a), rules)
  {
    var s' := RefreshRow(s, rules.w, token, name, a);
    forall k | k in s'.table ensures RowOk(s', rules, k) { assert RowOk(s, rules, k); }
    TableChange(s, s', rules);
  }

  lemma CleanupKeeps(s: State, rules: Rules, token: Token, a: Answer)
    requires Inv(s, rules) && Uncached(s, rules.w, rules.w.fold(token))
    ensures Inv(CleanupRows(s, rules.w, token, a), rules)
  {
    var s' := CleanupRows(s, rules.w, token, a);
    forall k | k in s'.table ensures RowOk(s', rules, k) { assert RowOk(s, rules, k); }
    TableChange(s, s', rules);
  }

  lemma DeleteRowKeeps(s: State, rules: Rules, token: Token, a: Answer)
    requires Inv(s, rules) && Uncached(s, rules.w, rules.w.fold(token))
    ensures Inv(DeleteRow(s, rules.w, token, a), rules)
  {
    var s' := DeleteRow(s, rules.w, token, a);
    forall k | k in s'.table ensures RowOk(s', rules, k) { assert RowOk(s, rules, k); }
    TableChange(s, s', rules);
  }

  lemma AfterKeeps(s: State, rules: Rules, d: nat)
    requires Inv(s, rules)
    ensures Inv(After(s, d), rules)
  {
    var s' := After(s, d);
    forall k | k in s'.table ensures RowOk(s', rules, k) { assert RowOk(s, rules, k); }
    TableChange(s, s', rules);
  }

  lemma ForgetKeeps(s: State, rules: Rules, token: Token)
    requires Inv(s, rules)
    ensures Inv(Forget(s, token), rules)
  {
    var s' := Forget(s, token);
    forall k | k in s'.table ensures RowOk(s', rules, k) { assert RowOk(s, rules, k); }
    TableChange(s, s', rules);
  }

  lemma PersistKeeps(s: State, rules: Rules, token: Token, name: string, a: Answer, lag: nat)
    requires Inv(s, rules) && token in rules.issued && Fresh(s, rules.w, token) && AnswerOk(a) && lag <= THRESHOLD
    requires name in rules.w.ids ==> Registered(rules.w, name)
    ensures Inv(Persist(s, rules.w, token, name, a, lag).0, rules)
  {
    UpsertKeeps(s, rules, token, name, a);
    var s1 := UpsertRow(s, rules.w, token, name, a);
    AfterKeeps(s1, rules, lag);
    if token != "" && a.ok && name in rules.w.ids {
      var s2 := After(s1, lag);
      CachedKeeps(s2, rules, token, Entry(name, s2.clock + rules.w.skew + TTL));
    }
  }

  lemma RefreshKeeps(s: State, rules: Rules, token: Token, name: string, a: Answer, lag: nat)
    requires Inv(s, rules) && token in rules.issued && AnswerOk(a) && lag <= THRESHOLD && Registered(rules.w, name)
    ensures Inv(Refresh(s, rules.w, token, name, a, lag).0, rules)
  {
    RefreshRowKeeps(s, rules, token, name, a);
    var s1 := RefreshRow(s, rules.w, token, name, a);
    AfterKeeps(s1, rules, lag);
    if token != "" && a.ok && Live(After(s, a.delay), rules.w, token, name) {
      var s2 := After(s1, lag);
      CachedKeeps(s2, rules, token, Entry(name, s2.clock + rules.w.skew + TTL));
    }
  }

  /** A presented token with a row is the one that was issued. */
  lemma RowIsIssued(s: State, rules: Rules, token: Token)
    requires RowsOk(s, rules) && TokensAsIssued(rules) && token in rules.presented && token != "" && rules.w.fold(token) in s.table
    ensures token in rules.issued
  {
    assert RowOk(s, rules, rules.w.fold(token));
  }

  lemma LookupRowKeeps(s: State, rules: Rules, token: Token, now: int, env: LookupEnv)
    requires Inv(s, rules) && Trustworthy(rules) && token in rules.presented && token != "" && token !in s.cache
    requires EnvOk(env, THRESHOLD)
    ensures var found := LookupRow(s, rules.w, token, now, env);
            Inv(found.state, rules) && (found.ok ==> Live(s, rules.w, token, found.name))
  {
    var w := rules.w;
    AfterKeeps(s, rules, env.find.delay);
    var s1, k := After(s, env.find.delay), w.fold(token);
    NoVariants(s1, rules, token);
    CleanupKeeps(s1, rules, token, env.cleanup);
    if env.find.ok && k in s1.table && s1.table[k].expiresAt > s1.clock {
      assert RowOk(s1, rules, k);
      RowIsIssued(s1, rules, token);
      var row, name := s1.table[k], NameOf(w, s1.table[k].user);
      CachedKeeps(s1, rules, token, Entry(name, row.expiresAt));
      RefreshKeeps(s1.(cache := s1.cache[token := Entry(name, row.expiresAt)]), rules, token, name, env.extend, env.extendLag);
    }
  }

  /** A refresh that does not succeed leaves the token's row to the same user, unexpired if it was. */
  lemma RefreshFailed(s: State, w: World, token: Token, name: string, a: Answer, lag: nat, other: string)
    requires !Refresh(s, w, token, name, a, lag).1
    ensures var s1 := Refresh(s, w, token, name, a, lag).0;
            && s1.cache == s.cache && s1.clock >= s.clock && (Live(s1, w, token, other) ==> Live(s, w, token, other))
  {
  }

  lemma LookupKeeps(s: State, rules: Rules, token: Token, env: LookupEnv)
    requires Inv(s, rules) && Trustworthy(rules) && token in rules.presented && EnvOk(env, THRESHOLD)
    ensures Inv(Lookup(s, rules.w, token, env).state, rules) && LookupSound(s, rules.w, token, env)
  {
    var w, now := rules.w, s.clock + rules.w.skew;
    if token != "" {
      if token in s.cache && s.cache[token].expiresAt > now {
        assert EntryOk(s, rules, token);
        var name := s.cache[token].name;
        var (s1, refreshed) := Refresh(s, w, token, name, env.hit, env.hitLag);
        RefreshKeeps(s, rules, token, name, env.hit, env.hitLag);
        ForgetKeeps(s1, rules, token);
        if !refreshed {
          RefreshFailed(s, w, token, name, env.hit, env.hitLag, LookupRow(Forget(s1, token), w, token, now, env).name);
          LookupRowKeeps(Forget(s1, token), rules, token, now, env);
        }
      } else {
        ForgetKeeps(s, rules, token);
        LookupRowKeeps(Forget(s, token), rules, token, now, env);
      }
    }
  }

  lemma RemoveKeeps(s: State, rules: Rules, token: Token, a: Answer)
    requires Inv(s, rules) && Trustworthy(rules) && token in rules.presented && token != ""
    ensures var (s', ok) := Remove(s, rules.w, true, token, a);
            && Inv(s', rules)
            && (a.effect ==> rules.w.fold(token) !in s'.table) && Uncached(s', rules.w, rules.w.fold(token))
  {
    ForgetKeeps(s, rules, token);
    NoVariants(Forget(s, token), rules, token);
    DeleteRowKeeps(Forget(s, token), rules, token, a);
  }

  /** With registered spellings, comparing bytes and comparing accounts is the same. */
  lemma RemoveUserKeeps(s: State, rules: Rules, name: string, except: Token, a: Answer)
    requires Inv(s, rules) && AnswerOk(a) && (name in rules.w.ids ==> Registered(rules.w, name))
    ensures var (s', ok) := RemoveUser(s, rules.w, true, name, except, a);
            && Inv(s', rules)
            && (ok && name in rules.w.ids ==>
                  forall k :: Holds(s', rules.w, k, rules.w.ids[name]) ==> except != "" && k == rules.w.fold(except))
  {
    var w := rules.w;
    var s1 := s.(cache := WithoutName(s.cache, name, except));
    forall k | k in s1.table ensures RowOk(s1, rules, k) { assert RowOk(s, rules, k); }
    TableChange(s, s1, rules);
    forall t | t in s1.cache ensures s1.cache[t].name in w.ids && (RowNamed(w, name, s1.cache[t].name) ==> t == except != "") {
      assert EntryOk(s1, rules, t);
    }
    var s2 := DeleteUserRows(s1, w, name, except, a);
    forall k | k in s2.table ensures RowOk(s2, rules, k) { assert RowOk(s1, rules, k); }
    TableChange(s1, s2, rules);
  }

  predicate RowNamed(w: World, name: string, other: string) { name in w.ids && other in w.ids && w.ids[other] == w.ids[name] }

  lemma LoginKeeps(s: State, rules: Rules, name: string, passwordOk: bool, token: Token, env: LoginEnv)
    requires Inv(s, rules) && Trustworthy(rules) && LoginEnvOk(env, THRESHOLD)
    requires token != "" ==> token in rules.issued && token in rules.presented && Fresh(s, rules.w, token)
    requires passwordOk && name in rules.w.ids ==> Registered(rules.w, name)
    ensures var (s', ok) := Login(s, rules.w, name, passwordOk, token, env);
            Inv(s', rules) && (ok ==> name in rules.w.ids && OnlyHolder(s', rules.w, rules.w.ids[name], rules.w.fold(token)))
  {
    if passwordOk && token != "" {
      PersistKeeps(s, rules, token, name, env.upsert, env.lag);
      var s1 := Persist(s, rules.w, token, name, env.upsert, env.lag).0;
      RemoveUserKeeps(s1, rules, name, token, env.remove);
      RemoveKeeps(RemoveUser(s1, rules.w, true, name, token, env.remove).0, rules, token, env.undo);
    }
  }

  // ---------- Every step, every run ----------

  /** Clients may present what they were issued, and the empty string is not a token. */
  ghost predicate TokensOk(rules: Rules) { "" !in rules.issued && rules.issued <= rules.presented }

  lemma StepKeeps(s: State, op: Op, rules: Rules)
    requires Inv(s, rules) && Allowed(s, op, rules) && Trustworthy(rules) && TokensOk(rules)
    ensures Inv(Step(s, rules.w, op), rules) && Keeps(s, rules.w, op)
  {
    var w := rules.w;
    match op
    case LoginOp(name, passwordOk, token, env) => LoginKeeps(s, rules, name, passwordOk, token, env);
    case LookupOp(token, env) => LookupKeeps(s, rules, token, env);
    case WaitOp(d) => AfterKeeps(s, rules, d);
    case LogoutOp(token, env, a) =>
      LookupKeeps(s, rules, token, env);
      var found := Lookup(s, w, token, env);
      if found.ok { RemoveKeeps(found.state, rules, token, a); }
    case LogoutAllOp(token, env, a) =>
      LookupKeeps(s, rules, token, env);
      var found := Lookup(s, w, token, env);
      if found.ok {
        FoundIsRegistered(s, rules, token, env);
        RemoveUserKeeps(found.state, rules, found.name, "", a);
      }
  }

  lemma FoundIsRegistered(s: State, rules: Rules, token: Token, env: LookupEnv)
    requires Inv(s, rules) && Lookup(s, rules.w, token, env).ok
    ensures Registered(rules.w, Lookup(s, rules.w, token, env).name)
  {
    if token in s.cache { assert EntryOk(s, rules, token); }
  }

  lemma {:induction false} RunInv(states: seq<State>, ops: seq<Op>, rules: Rules, i: nat)
    requires IsRun(states, ops, rules) && AccountsOk(rules.w) && Trustworthy(rules) && TokensOk(rules) && i < |states|
    ensures Inv(states[i], rules)
    decreases i
  {
    if i > 0 {
      RunInv(states, ops, rules, i - 1);
      assert Allowed(states[i - 1], ops[i - 1], rules);
      StepKeeps(states[i - 1], ops[i - 1], rules);
    }
  }

  /** Every lookup, login and logout keeps its promise on every run. */
  ghost predicate Safe(rules: Rules) {
    forall states: seq<State>, ops: seq<Op>, i: nat | IsRun(states, ops, rules) && i < |ops| :: Keeps(states[i], rules.w, ops[i])
  }

  // ---------- What holds whatever the spellings, clocks and overlaps ----------

  /** Nothing new stands for a user when rows keep their users and what is cached was held before. */
  lemma NoneAdded(s: State, s': State, w: World, k: Key, user: nat)
    requires Holds(s', w, k, user)
    requires forall j :: j in s'.table ==> j in s.table && s'.table[j].user == s.table[j].user
    requires forall t :: w.fold(t) == k && CachedFor(s', w, t, user) ==> Holds(s, w, k, user)
    ensures Holds(s, w, k, user)
  {
  }

  lemma RefreshAddsNone(s: State, w: World, token: Token, name: string, a: Answer, lag: nat, k: Key, user: nat)
    requires Holds(Refresh(s, w, token, name, a, lag).0, w, k, user)
    ensures Holds(s, w, k, user)
  {
    var s' := Refresh(s, w, token, name, a, lag).0;
    forall t | w.fold(t) == k && CachedFor(s', w, t, user) ensures Holds(s, w, k, user) {
      assert t != token || s'.cache == s.cache ==> CachedFor(s, w, t, user);
    }
    NoneAdded(s, s', w, k, user);
  }

  lemma LookupRowAddsNone(s: State, w: World, token: Token, now: int, env: LookupEnv, k: Key, user: nat)
    requires AccountsOk(w) && Holds(LookupRow(s, w, token, now, env).state, w, k, user)
    ensures Holds(s, w, k, user)
  {
    var s1, j := After(s, env.find.delay), w.fold(token);
    var s' := LookupRow(s, w, token, now, env).state;
    if env.find.ok && j in s1.table && s1.table[j].expiresAt > s1.clock {
      var row, name := s1.table[j], NameOf(w, s1.table[j].user);
      if name != "" && now < row.expiresAt {
        var s2 := s1.(cache := s1.cache[token := Entry(name, row.expiresAt)]);
        if row.expiresAt - now <= THRESHOLD { RefreshAddsNone(s2, w, token, name, env.extend, env.extendLag, k, user); }
        CacheAddsNone(s, s2, w, token, k, user);
      }
    } else {
      ShrunkAddsNone(s, s', w, k, user);
    }
  }

  /** Caching a token under the registered name of its row's user. */
  lemma CacheAddsNone(s: State, s': State, w: World, token: Token, k: Key, user: nat)
    requires Holds(s', w, k, user) && s'.table == s.table && w.fold(token) in s.table && AccountsOk(w)
    requires token in s'.cache && s'.cache == s.cache[token := s'.cache[token]]
    requires s'.cache[token].name == NameOf(w, s.table[w.fold(token)].user) != ""
    ensures Holds(s, w, k, user)
  {
    forall t | w.fold(t) == k && CachedFor(s', w, t, user) ensures Holds(s, w, k, user) {
      assert t != token ==> CachedFor(s, w, t, user);
    }
    NoneAdded(s, s', w, k, user);
  }

  /** Rows and cached sessions that only disappear. */
  lemma ShrunkAddsNone(s: State, s': State, w: World, k: Key, user: nat)
    requires Holds(s', w, k, user)
    requires forall j :: j in s'.table ==> j in s.table && s'.table[j].user == s.table[j].user
    requires forall t :: t in s'.cache ==> t in s.cache && s'.cache[t] == s.cache[t]
    ensures Holds(s, w, k, user)
  {
    forall t | w.fold(t) == k && CachedFor(s', w, t, user) ensures Holds(s, w, k, user) { assert CachedFor(s, w, t, user); }
    NoneAdded(s, s', w, k, user);
  }

  lemma LookupAddsNone(s: State, w: World, token: Token, env: LookupEnv, k: Key, user: nat)
    requires AccountsOk(w) && Holds(Lookup(s, w, token, env).state, w, k, user)
    ensures Holds(s, w, k, user)
  {
    var now := s.clock + w.skew;
    if token != "" {
      if token in s.cache && s.cache[token].expiresAt > now {
        if s.cache[token].expiresAt - now <= THRESHOLD {
          var (s1, refreshed) := Refresh(s, w, token, s.cache[token].name, env.hit, env.hitLag);
          if !refreshed {
            LookupRowAddsNone(Forget(s1, token), w, token, now, env, k, user);
            ShrunkAddsNone(s1, Forget(s1, token), w, k, user);
          }
          RefreshAddsNone(s, w, token, s.cache[token].name, env.hit, env.hitLag, k, user);
        }
      } else {
        LookupRowAddsNone(Forget(s, token), w, token, now, env, k, user);
        ShrunkAddsNone(s, Forget(s, token), w, k, user);
      }
    }
  }

  lemma RemoveUserAddsNone(s: State, w: World, name: string, except: Token, a: Answer, k: Key, user: nat)
    requires Holds(RemoveUser(s, w, true, name, except, a).0, w, k, user)
    ensures Holds(s, w, k, user)
  {
    ShrunkAddsNone(s, RemoveUser(s, w, true, name, except, a).0, w, k, user);
  }

  lemma RemoveAddsNone(s: State, w: World, token: Token, a: Answer, k: Key, user: nat)
    requires Holds(Remove(s, w, true, token, a).0, w, k, user)
    ensures Holds(s, w, k, user)
  {
    ShrunkAddsNone(s, Remove(s, w, true, token, a).0, w, k, user);
  }

  lemma SettleAddsNone(stored: (State, bool), w: World, name: string, token: Token, env: LoginEnv, k: Key, user: nat)
    requires Holds(Settle(stored, w, name, token, env).0, w, k, user)
    ensures Holds(stored.0, w, k, user)
  {
    if stored.1 {
      var (s, cleared) := RemoveUser(stored.0, w, true, name, token, env.remove);
      if !cleared { RemoveAddsNone(s, w, token, env.undo, k, user); }
      RemoveUserAddsNone(stored.0, w, name, token, env.remove, k, user);
    }
  }

  lemma StoreAdds(s: State, w: World, token: Token, name: string, a: Answer, lag: nat, k: Key, user: nat)
    requires Holds(Store(s, w, token, name, a, lag).0, w, k, user)
    ensures Holds(s, w, k, user) || (k == w.fold(token) && name in w.ids && w.ids[name] == user)
  {
    var s' := Store(s, w, token, name, a, lag).0;
    if !(k == w.fold(token) && name in w.ids && w.ids[name] == user) {
      forall t | w.fold(t) == k && CachedFor(s', w, t, user) ensures Holds(s, w, k, user) { assert CachedFor(s, w, t, user); }
      NoneAdded(s, s', w, k, user);
    }
  }

  lemma UpsertAdds(s: State, w: World, token: Token, name: string, a: Answer, k: Key, user: nat)
    requires Holds(UpsertRow(s, w, token, name, a), w, k, user)
    ensures Holds(s, w, k, user) || (k == w.fold(token) && name in w.ids && w.ids[name] == user)
  {
    var s' := UpsertRow(s, w, token, name, a);
    if !(k in s'.table && s'.table[k].user == user) {
      var t :| w.fold(t) == k && CachedFor(s', w, t, user);
      assert CachedFor(s, w, t, user);
    }
  }

  /** The request is, or overlaps with, a login of this user that issues a token of this class. */
  predicate Issues(op: Op, w: World, k: Key, user: nat) {
    match op
    case LoginOp(name, passwordOk, token, _) => passwordOk && w.fold(token) == k && name in w.ids && w.ids[name] == user
    case OverlapOp(name, token, _, meanwhile) =>
      (w.fold(token) == k && name in w.ids && w.ids[name] == user) || Issues(meanwhile, w, k, user)
    case _ => false
  }

  /** No token comes to stand for a user, in any spelling, by anything but a login of that user. */
  lemma {:induction false} HoldersOnlyByLogin(s: State, op: Op, w: World, k: Key, user: nat)
    requires AccountsOk(w) && Holds(Step(s, w, op), w, k, user)
    ensures Holds(s, w, k, user) || Issues(op, w, k, user)
    decreases op
  {
    match op
    case LoginOp(name, passwordOk, token, env) =>
      if passwordOk && token != "" {
        SettleAddsNone(Persist(s, w, token, name, env.upsert, env.lag), w, name, token, env, k, user);
        if name != "" {
          StoreAdds(UpsertRow(s, w, token, name, env.upsert), w, token, name, env.upsert, env.lag, k, user);
          if Holds(UpsertRow(s, w, token, name, env.upsert), w, k, user) { UpsertAdds(s, w, token, name, env.upsert, k, user); }
        }
      }
    case LookupOp(token, env) => LookupAddsNone(s, w, token, env, k, user);
    case LogoutOp(token, env, a) =>
      var found := Lookup(s, w, token, env);
      if found.ok { RemoveAddsNone(found.state, w, token, a, k, user); }
      LookupAddsNone(s, w, token, env, k, user);
    case LogoutAllOp(token, env, a) =>
      var found := Lookup(s, w, token, env);
      if found.ok { RemoveUserAddsNone(found.state, w, found.name, "", a, k, user); }
      LookupAddsNone(s, w, token, env, k, user);
    case WaitOp(d) => ShrunkAddsNone(s, After(s, d), w, k, user);
    case OverlapOp(name, token, env, meanwhile) =>
      if token == "" || name == "" {
        HoldersOnlyByLogin(s, meanwhile, w, k, user);
      } else {
        var s1 := UpsertRow(s, w, token, name, env.upsert);
        var s2 := Step(s1, w, meanwhile);
        SettleAddsNone(Store(s2, w, token, name, env.upsert, env.lag), w, name, token, env, k, user);
        StoreAdds(s2, w, token, name, env.upsert, env.lag, k, user);
        if Holds(s2, w, k, user) {
          HoldersOnlyByLogin(s1, meanwhile, w, k, user);
          if Holds(s1, w, k, user) { UpsertAdds(s, w, token, name, env.upsert, k, user); }
        }
      }
  }

  /** After a login, until the user logs in again, no token but the new one stands for the user, in any spelling. */
  lemma {:induction false} OnlyTheNewToken(states: seq<State>, ops: seq<Op>, rules: Rules, i: nat, j: nat, user: nat, k: Key)
    requires IsRun(states, ops, rules) && AccountsOk(rules.w) && i <= j <= |ops| && OnlyHolder(states[i], rules.w, user, k)
    requires forall n, c :: i <= n < j ==> !Issues(ops[n], rules.w, c, user)
    ensures OnlyHolder(states[j], rules.w, user, k)
    decreases j - i
  {
    if i < j {
      OnlyTheNewToken(states, ops, rules, i, j - 1, user, k);
      forall c | Holds(states[j], rules.w, c, user) ensures c == k {
        HoldersOnlyByLogin(states[j - 1], ops[j - 1], rules.w, c, user);
      }
    }
  }

  /** A token with an unexpired row is accepted when the query for it is answered, whatever else fails. */
  lemma LookupComplete(s: State, rules: Rules, token: Token, env: LookupEnv)
    requires AccountsOk(rules.w) && RowsOk(s, rules) && token != "" && env.find.ok && (token in s.cache ==> s.cache[token].name != "")
    requires var k := rules.w.fold(token);
             && k in s.table && s.table[k].expiresAt > s.clock + env.hit.delay + env.find.delay
             && s.table[k].expiresAt > s.clock + rules.w.skew
    ensures Lookup(s, rules.w, token, env).ok
  {
    assert RowOk(s, rules, rules.w.fold(token));
  }
}
