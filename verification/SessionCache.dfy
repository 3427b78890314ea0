/**
 The session functions of the server, over the table and the process-wide cache.  What the database answers,
 and when, comes in as an argument; every operation is tied to its step of the state machine.
 */
module SessionCache {
  import opened SessionSteps
  import opened SessionRuns

  class Sessions {
    const w: World
    var table: map<Key, Row>
    var cache: map<Token, Entry>
    var clock: int

    ghost function Now(): State
      reads this
    {
      State(table, cache, clock)
    }

    /** A process that starts on an existing table. */
    constructor (w: World, table: map<Key, Row>, clock: int)
      ensures this.w == w && Now() == State(table, map[], clock)
    {
      this.w, this.table, cache, this.clock := w, table, map[], clock;
    }

    /** The process's own clock. */
    method Time() returns (now: int)
      ensures now == clock + w.skew
    {
      return clock + w.skew;
    }

    method PersistSession(token: Token, name: string, a: Answer, lag: nat) returns (ok: bool)
      modifies this`table, this`cache, this`clock
      ensures (Now(), ok) == Persist(old(Now()), w, token, name, a, lag)
    {
      if token == "" || name == "" { return false; }
      clock := clock + a.delay;
      if a.effect && name in w.ids {
        var k := w.fold(token);
        table := table[k := Row(if k in table then table[k].token else token, w.ids[name], clock + TTL)];
      }
      if !(a.ok && name in w.ids) { return false; }
      clock := clock + lag;
      var now := Time();
      cache := cache[token := Entry(name, now + TTL)];
      return true;
    }

    method RefreshSession(token: Token, name: string, a: Answer, lag: nat) returns (ok: bool)
      modifies this`table, this`cache, this`clock
      ensures (Now(), ok) == Refresh(old(Now()), w, token, name, a, lag)
    {
      if token == "" || name == "" { return false; }
      clock := clock + a.delay;
      var k := w.fold(token);
      var live := k in table && name in w.ids && table[k].user == w.ids[name] && table[k].expiresAt > clock;
      if a.effect && live {
        table := table[k := Row(table[k].token, table[k].user, clock + TTL)];
      }
      if !(a.ok && live) { return false; }
      clock := clock + lag;
      var now := Time();
      cache := cache[token := Entry(name, now + TTL)];
      return true;
    }

    method LookupInTable(token: Token, now: int, env: LookupEnv) returns (found: bool, name: string)
      modifies this`table, this`cache, this`clock
      ensures Found(Now(), found, name) == LookupRow(old(Now()), w, token, now, env)
    {
      clock := clock + env.find.delay;
      var k := w.fold(token);
      if !(env.find.ok && k in table && table[k].expiresAt > clock) {
        clock := clock + env.cleanup.delay;
        if env.cleanup.effect {
          table := map j | j in table && j != k && table[j].expiresAt > clock :: table[j];
        }
        return false, "";
      }
      var row := table[k];
      name := NameOf(w, row.user);
      if name == "" || row.expiresAt <= now { return false, name; }
      cache := cache[token := Entry(name, row.expiresAt)];
      if row.expiresAt - now <= THRESHOLD {
        var _ := RefreshSession(token, name, env.extend, env.extendLag);
      }
      found := true;
    }

    /**
     Resolves a token, from the cache if the entry is far from its expiry, otherwise with the table.  On a run
     of trustworthy rules an accepted token has an unexpired row of the user it resolves to.
     */
    method LookupSession(token: Token, env: LookupEnv, ghost rules: Rules) returns (found: bool, name: string)
      requires rules.w == w
      modifies this`table, this`cache, this`clock
      ensures Found(Now(), found, name) == Lookup(old(Now()), w, token, env)
      ensures old(Inv(Now(), rules)) && Trustworthy(rules) && Allowed(old(Now()), LookupOp(token, env), rules) ==>
                Inv(Now(), rules) && (found ==> old(Live(Now(), w, token, name)))
    {
      if Inv(Now(), rules) && Trustworthy(rules) && Allowed(Now(), LookupOp(token, env), rules) {
        LookupKeeps(Now(), rules, token, env);
      }
      if token == "" { return false, ""; }
      var now := Time();
      if token in cache && cache[token].expiresAt > now {
        name := cache[token].name;
        if cache[token].expiresAt - now > THRESHOLD { return name != "", name; }
        var refreshed := RefreshSession(token, name, env.hit, env.hitLag);
        if refreshed { return name != "", name; }
      }
      cache := cache - {token};
      found, name := LookupInTable(token, now, env);
    }

    method RemoveSession(connected: bool, token: Token, a: Answer) returns (ok: bool)
      modifies this`table, this`cache, this`clock
      ensures (Now(), ok) == Remove(old(Now()), w, connected, token, a)
    {
      if token == "" { return false; }
      cache := cache - {token};
      if !connected { return true; }
      clock := clock + a.delay;
      if a.effect {
        table := table - {w.fold(token)};
      }
      return a.ok;
    }

    /** Drops the cached sessions under a name, byte for byte, except one. */
    method DropCached(name: string, except: Token)
      modifies this`cache
      ensures cache == WithoutName(old(cache), name, except)
    {
      var todo := cache.Keys;
      while todo != {}
        invariant todo <= cache.Keys <= old(cache).Keys
        invariant forall t <- cache :: cache[t] == old(cache)[t]
        invariant forall t <- old(cache).Keys - todo :: t in cache <==> !(old(cache)[t].name == name && (except == "" || t != except))
        decreases |todo|
      {
        var t :| t in todo;
        var keepSession := except != "" && t == except;
        if cache[t].name == name && !keepSession {
          cache := cache - {t};
        }
        todo := todo - {t};
      }
    }

    method RemoveUserSessions(connected: bool, name: string, except: Token, a: Answer) returns (ok: bool)
      modifies this`table, this`cache, this`clock
      ensures (Now(), ok) == RemoveUser(old(Now()), w, connected, name, except, a)
    {
      if name == "" { return false; }
      DropCached(name, except);
      if !connected { return true; }
      clock := clock + a.delay;
      if a.effect {
        table := map k | k in table && !(RowOf(w, name, table[k]) && (except == "" || k != w.fold(except))) :: table[k];
      }
      return a.ok;
    }

    /** Login with a fresh token; on a run of trustworthy rules no other session stands for the user afterwards. */
    method LoginUser(name: string, passwordOk: bool, token: Token, env: LoginEnv, ghost rules: Rules) returns (ok: bool)
      requires rules.w == w
      modifies this`table, this`cache, this`clock
      ensures (Now(), ok) == Login(old(Now()), w, name, passwordOk, token, env)
      ensures old(Inv(Now(), rules)) && Trustworthy(rules) && TokensOk(rules)
                && Allowed(old(Now()), LoginOp(name, passwordOk, token, env), rules) ==>
                Inv(Now(), rules) && (ok ==> name in w.ids && OnlyHolder(Now(), w, w.ids[name], w.fold(token)))
    {
      ghost var op := LoginOp(name, passwordOk, token, env);
      if Inv(Now(), rules) && Trustworthy(rules) && TokensOk(rules) && Allowed(Now(), op, rules) { StepKeeps(Now(), op, rules); }
      if !passwordOk || token == "" { return false; }
      ok := PersistSession(token, name, env.upsert, env.lag);
      if !ok { return false; }
      ok := RemoveUserSessions(true, name, token, env.remove);
      if !ok {
        var _ := RemoveSession(true, token, env.undo);
      }
    }

    method Logout(connected: bool, name: string, token: Token, all: bool, a: Answer) returns (ok: bool)
      modifies this`table, this`cache, this`clock
      ensures (Now(), ok) ==
              if all then RemoveUser(old(Now()), w, connected, name, "", a) else Remove(old(Now()), w, connected, token, a)
    {
      if all { ok := RemoveUserSessions(connected, name, "", a); } else { ok := RemoveSession(connected, token, a); }
    }
  }
}
