/**
 Login sessions as a state machine: the session table of the database, and the process's cache that speeds
 it up.  The table compares tokens and user names by collation, and judges expiry by the database's clock; the
 cache compares bytes, and judges expiry by the process's clock.  Inside an operation time passes, and a
 statement may fail with or without having taken effect.  No user is disabled.
 */
module SessionSteps {
  type Token = string

  /** A class of strings that the collation holds equal. */
  type Key = nat

  const TTL := 7 * 24 * 3600
  const THRESHOLD := 24 * 3600

  /** A row keeps the token as it was issued, but is found under its class. */
  datatype Row = Row(token: Token, user: nat, expiresAt: int)
  datatype Entry = Entry(name: string, expiresAt: int)
  datatype State = State(table: map<Key, Row>, cache: map<Token, Entry>, clock: int)

  /**
   What never changes.  `ids`: the account every spelling stands for under the collation; `names`: how an
   account is registered; `fold`: the class of a token; `skew`: how far the process's clock is ahead.
   */
  datatype World = World(ids: map<string, nat>, names: map<nat, string>, fold: Token -> Key, skew: int)

  ghost predicate AccountsOk(w: World) {
    && "" !in w.ids
    && (forall u :: u in w.names ==> w.names[u] in w.ids && w.ids[w.names[u]] == u)
    && (forall n :: n in w.ids ==> w.ids[n] in w.names)
  }

  /** One statement: how long it takes, whether it takes effect, and whether the client learns of it. */
  datatype Answer = Answer(delay: nat, effect: bool, ok: bool)

  predicate AnswerOk(a: Answer) { a.ok ==> a.effect }

  function After(s: State, delay: nat): State { s.(clock := s.clock + delay) }

  // ---------- Statements on the table ----------

  /** INSERT ... ON DUPLICATE KEY UPDATE, for an existing user; a duplicate keeps its stored token. */
  function UpsertRow(s: State, w: World, token: Token, name: string, a: Answer): State {
    var s1, k := After(s, a.delay), w.fold(token);
    if a.effect && name in w.ids
    then s1.(table := s1.table[k := Row(if k in s1.table then s1.table[k].token else token, w.ids[name], s1.clock + TTL)])
    else s1
  }

  predicate RowOf(w: World, name: string, row: Row) { name in w.ids && row.user == w.ids[name] }

  predicate Live(s: State, w: World, token: Token, name: string) {
    var k := w.fold(token);
    k in s.table && RowOf(w, name, s.table[k]) && s.table[k].expiresAt > s.clock
  }

  function RefreshRow(s: State, w: World, token: Token, name: string, a: Answer): State {
    var s1, k := After(s, a.delay), w.fold(token);
    if a.effect && Live(s1, w, token, name)
    then s1.(table := s1.table[k := s1.table[k].(expiresAt := s1.clock + TTL)]) else s1
  }

  function Unexpired(table: map<Key, Row>, except: Key, clock: int): map<Key, Row> {
    map k | k in table && k != except && table[k].expiresAt > clock :: table[k]
  }

  function CleanupRows(s: State, w: World, token: Token, a: Answer): State {
    var s1 := After(s, a.delay);
    if a.effect then s1.(table := Unexpired(s1.table, w.fold(token), s1.clock)) else s1
  }

  function DeleteRow(s: State, w: World, token: Token, a: Answer): State {
    var s1 := After(s, a.delay);
    if a.effect then s1.(table := s1.table - {w.fold(token)}) else s1
  }

  function WithoutUser(table: map<Key, Row>, w: World, name: string, except: Token): map<Key, Row> {
    map k | k in table && !(RowOf(w, name, table[k]) && (except == "" || k != w.fold(except))) :: table[k]
  }

  function DeleteUserRows(s: State, w: World, name: string, except: Token, a: Answer): State {
    var s1 := After(s, a.delay);
    if a.effect then s1.(table := WithoutUser(s1.table, w, name, except)) else s1
  }

  // ---------- Operations ----------

  function Cached(s: State, w: World, token: Token, name: string): State {
    s.(cache := s.cache[token := Entry(name, s.clock + w.skew + TTL)])
  }

  /** The cache write behind an upsert. */
  function Store(s: State, w: World, token: Token, name: string, a: Answer, lag: nat): (State, bool) {
    if a.ok && name in w.ids then (Cached(After(s, lag), w, token, name), true) else (s, false)
  }

  function Persist(s: State, w: World, token: Token, name: string, a: Answer, lag: nat): (State, bool) {
    if token == "" || name == "" then (s, false) else Store(UpsertRow(s, w, token, name, a), w, token, name, a, lag)
  }

  function Refresh(s: State, w: World, token: Token, name: string, a: Answer, lag: nat): (State, bool) {
    if token == "" || name == "" then (s, false)
    else
      var s1 := RefreshRow(s, w, token, name, a);
      if a.ok && Live(After(s, a.delay), w, token, name) then (Cached(After(s1, lag), w, token, name), true) else (s1, false)
  }

  /** The answers one lookup may need. */
  datatype LookupEnv = LookupEnv(hit: Answer, hitLag: nat, find: Answer, cleanup: Answer, extend: Answer, extendLag: nat)

  datatype Found = Found(state: State, ok: bool, name: string)

  function NameOf(w: World, user: nat): string { if user in w.names then w.names[user] else "" }

  /** The table's answer for a token the cache does not know; `now` is the process's time when the lookup began. */
  function LookupRow(s: State, w: World, token: Token, now: int, env: LookupEnv): Found {
    var s1, k := After(s, env.find.delay), w.fold(token);
    if !(env.find.ok && k in s1.table && s1.table[k].expiresAt > s1.clock) then
      Found(CleanupRows(s1, w, token, env.cleanup), false, "")
    else
      var row, name := s1.table[k], NameOf(w, s1.table[k].user);
      if name == "" || row.expiresAt <= now then Found(s1, false, name)
      else
        var s2 := s1.(cache := s1.cache[token := Entry(name, row.expiresAt)]);
        if row.expiresAt - now <= THRESHOLD
        then Found(Refresh(s2, w, token, name, env.extend, env.extendLag).0, true, name) else Found(s2, true, name)
  }

  function Forget(s: State, token: Token): State { s.(cache := s.cache - {token}) }

  function Lookup(s: State, w: World, token: Token, env: LookupEnv): Found {
    var now := s.clock + w.skew;
    if token == "" then Found(s, false, "")
    else if token in s.cache && s.cache[token].expiresAt > now then
      var name := s.cache[token].name;
      if s.cache[token].expiresAt - now > THRESHOLD then Found(s, name != "", name)
      else
        var (s1, refreshed) := Refresh(s, w, token, name, env.hit, env.hitLag);
        if refreshed then Found(s1, name != "", name) else LookupRow(Forget(s1, token), w, token, now, env)
    else LookupRow(Forget(s, token), w, token, now, env)
  }

  function Remove(s: State, w: World, connected: bool, token: Token, a: Answer): (State, bool) {
    if token == "" then (s, false)
    else if !connected then (Forget(s, token), true)
    else (DeleteRow(Forget(s, token), w, token, a), a.ok)
  }

  /** The cache loop compares the bytes of names and tokens. */
  function WithoutName(cache: map<Token, Entry>, name: string, except: Token): map<Token, Entry> {
    map t | t in cache && !(cache[t].name == name && (except == "" || t != except)) :: cache[t]
  }

  function RemoveUser(s: State, w: World, connected: bool, name: string, except: Token, a: Answer): (State, bool) {
    if name == "" then (s, false)
    else
      var s1 := s.(cache := WithoutName(s.cache, name, except));
      if !connected then (s1, true) else (DeleteUserRows(s1, w, name, except, a), a.ok)
  }

  datatype LoginEnv = LoginEnv(upsert: Answer, lag: nat, remove: Answer, undo: Answer)

  /** The part of a login behind the storing of its session. */
  function Settle(stored: (State, bool), w: World, name: string, token: Token, env: LoginEnv): (State, bool) {
    if !stored.1 then stored
    else
      var (s, cleared) := RemoveUser(stored.0, w, true, name, token, env.remove);
      if cleared then (s, true) else (Remove(s, w, true, token, env.undo).0, false)
  }

  function Login(s: State, w: World, name: string, passwordOk: bool, token: Token, env: LoginEnv): (State, bool) {
    if !passwordOk || token == "" then (s, false)
    else Settle(Persist(s, w, token, name, env.upsert, env.lag), w, name, token, env)
  }

  // ---------- Runs ----------

  /**
   Requests.  A logout is authenticated first, and a logout everywhere acts for the name under which its token
   resolves.  In an overlap another request is served between the table write and the cache write of a login.
   */
  datatype Op =
    | LoginOp(name: string, passwordOk: bool, token: Token, loginEnv: LoginEnv)
    | LookupOp(token: Token, env: LookupEnv)
    | LogoutOp(token: Token, env: LookupEnv, answer: Answer)
    | LogoutAllOp(token: Token, env: LookupEnv, answer: Answer)
    | OverlapOp(name: string, token: Token, loginEnv: LoginEnv, meanwhile: Op)
    | WaitOp(delay: nat)

  function Step(s: State, w: World, op: Op): State
    decreases op
  {
    match op
    case LoginOp(name, passwordOk, token, env) => Login(s, w, name, passwordOk, token, env).0
    case LookupOp(token, env) => Lookup(s, w, token, env).state
    case LogoutOp(token, env, a) =>
      var found := Lookup(s, w, token, env);
      if found.ok then Remove(found.state, w, true, token, a).0 else found.state
    case LogoutAllOp(token, env, a) =>
      var found := Lookup(s, w, token, env);
      if found.ok then RemoveUser(found.state, w, true, found.name, "", a).0 else found.state
    case OverlapOp(name, token, env, meanwhile) =>
      if token == "" || name == "" then Step(s, w, meanwhile)
      else
        var s1 := Step(UpsertRow(s, w, token, name, env.upsert), w, meanwhile);
        Settle(Store(s1, w, token, name, env.upsert, env.lag), w, name, token, env).0
    case WaitOp(d) => After(s, d)
  }

  /**
   The world, the spellings under which logins are accepted, the tokens issued and presented, the longest lag of
   a cache write behind its table write, and whether requests may overlap.
   */
  datatype Rules = Rules(w: World, spellings: iset<string>, issued: iset<Token>, presented: iset<Token>, lag: nat, overlap: bool)

  predicate EnvOk(env: LookupEnv, lag: nat) {
    && AnswerOk(env.hit) && AnswerOk(env.find) && AnswerOk(env.cleanup) && AnswerOk(env.extend)
    && env.hitLag <= lag && env.extendLag <= lag
  }

  predicate LoginEnvOk(env: LoginEnv, lag: nat) {
    AnswerOk(env.upsert) && AnswerOk(env.remove) && AnswerOk(env.undo) && env.lag <= lag
  }

  ghost predicate Uncached(s: State, w: World, k: Key) { forall t :: t in s.cache ==> w.fold(t) != k }

  /** A random token that nothing is known of yet. */
  ghost predicate Fresh(s: State, w: World, token: Token) { w.fold(token) !in s.table && Uncached(s, w, w.fold(token)) }

  ghost predicate Allowed(s: State, op: Op, rules: Rules)
    decreases op
  {
    match op
    case LoginOp(name, passwordOk, token, env) =>
      && (passwordOk ==> name in rules.spellings) && LoginEnvOk(env, rules.lag)
      && (token != "" ==> token in rules.issued && Fresh(s, rules.w, token))
    case LookupOp(token, env) => token in rules.presented && EnvOk(env, rules.lag)
    case LogoutOp(token, env, a) => token in rules.presented && EnvOk(env, rules.lag) && AnswerOk(a)
    case LogoutAllOp(token, env, a) => token in rules.presented && EnvOk(env, rules.lag) && AnswerOk(a)
    case OverlapOp(name, token, env, meanwhile) =>
      && rules.overlap && name in rules.spellings && LoginEnvOk(env, rules.lag)
      && token in rules.issued && Fresh(s, rules.w, token)
      && var s1 := UpsertRow(s, rules.w, token, name, env.upsert);
         Allowed(s1, meanwhile, rules) && Step(s1, rules.w, meanwhile).clock - s1.clock + env.lag <= rules.lag
    case WaitOp(_) => true
  }

  ghost predicate RowOk(s: State, rules: Rules, k: Key)
    requires k in s.table
  {
    var row := s.table[k];
    row.user in rules.w.names && row.expiresAt <= s.clock + TTL && row.token in rules.issued && rules.w.fold(row.token) == k
  }

  ghost predicate RowsOk(s: State, rules: Rules) { forall k :: k in s.table ==> RowOk(s, rules, k) }

  /** A process start: the table holds sessions, the cache is empty. */
  ghost predicate Init(s: State, rules: Rules) { s.cache == map[] && RowsOk(s, rules) }

  ghost predicate IsRun(states: seq<State>, ops: seq<Op>, rules: Rules) {
    && |states| == |ops| + 1 && Init(states[0], rules)
    && forall i: nat :: i < |ops| ==> Allowed(states[i], ops[i], rules) && states[i + 1] == Step(states[i], rules.w, ops[i])
  }

  // ---------- What is promised ----------

  predicate CachedFor(s: State, w: World, t: Token, user: nat) {
    t in s.cache && s.cache[t].name in w.ids && w.ids[s.cache[t].name] == user
  }

  /** A class of tokens stands for a user: it has a row of the user, or one of its tokens is cached under a name of the user. */
  ghost predicate Holds(s: State, w: World, k: Key, user: nat) {
    || (k in s.table && s.table[k].user == user)
    || exists t :: w.fold(t) == k && CachedFor(s, w, t, user)
  }

  ghost predicate OnlyHolder(s: State, w: World, user: nat, k: Key) { forall j :: Holds(s, w, j, user) ==> j == k }
  ghost predicate NoHolder(s: State, w: World, user: nat) { forall j :: !Holds(s, w, j, user) }

  /** An accepted token has an unexpired row of the user it resolves to. */
  predicate LookupSound(s: State, w: World, token: Token, env: LookupEnv) {
    var found := Lookup(s, w, token, env);
    found.ok ==> Live(s, w, token, found.name)
  }

  /** What an operation promises when it succeeds. */
  ghost predicate Keeps(s: State, w: World, op: Op) {
    match op
    case LookupOp(token, env) => LookupSound(s, w, token, env)
    case LoginOp(name, passwordOk, token, env) =>
      var (s', ok) := Login(s, w, name, passwordOk, token, env);
      ok ==> name in w.ids && OnlyHolder(s', w, w.ids[name], w.fold(token))
    case LogoutOp(token, env, a) =>
      var s' := Step(s, w, op);
      Lookup(s, w, token, env).ok && a.ok ==> w.fold(token) !in s'.table && Uncached(s', w, w.fold(token))
    case LogoutAllOp(token, env, a) =>
      var found := Lookup(s, w, token, env);
      found.ok && a.ok ==> found.name in w.ids && NoHolder(Step(s, w, op), w, w.ids[found.name])
    case OverlapOp(_, _, _, _) => true
    case WaitOp(_) => true
  }
}
