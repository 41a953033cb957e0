/** The two sync checkpoints of the base reducer (lib/reducers/master-reducer.js, updates-reducer.js and
    the message reducer's currentAsOf). */
module Checkpoints {
  import opened Collections
  import opened MessageModel
  import M = MessageReducer

  datatype ConnectionStatus = Connected | NotConnected

  /** What the base reducer and the updates reducer tell apart. */
  datatype Kind = LogIn | SIWEAuth | Register | FullStateSync | IncrementalStateSync | ProcessUpdates | OtherKind

  /** An action: what it is to the message reducer, the updates checkpoint it carries, and the connection
      status that the connection reducer makes of it. */
  datatype Action = Action(kind: Kind, messages: M.Action, updatesCurrentAsOf: int, statusAfter: ConnectionStatus)

  datatype State = State(messageStore: Store, updatesCurrentAsOf: int, status: ConnectionStatus)

  /** Actions that may set the checkpoints whatever the connection status is. */
  predicate Exempt(kind: Kind) {
    kind.LogIn? || kind.SIWEAuth? || kind.Register? || kind.FullStateSync? || kind.IncrementalStateSync?
  }

  /** Only a login replaces the whole message store. */
  predicate WellKinded(a: Action) {
    a.messages.LoginSuccess? ==> a.kind.LogIn? || a.kind.SIWEAuth?
  }

  /** `reduceUpdatesCurrentAsOf` */
  function ReduceUpdatesCurrentAsOf(currentAsOf: int, a: Action): int {
    match a.kind
    case LogIn => a.updatesCurrentAsOf
    case SIWEAuth => a.updatesCurrentAsOf
    case FullStateSync => a.updatesCurrentAsOf
    case IncrementalStateSync => a.updatesCurrentAsOf
    case ProcessUpdates => Max(a.updatesCurrentAsOf, currentAsOf)
    case _ => currentAsOf
  }

  /** The part of `baseReducer` that concerns the checkpoints. */
  function BaseReduce(s: State, a: Action, env: M.Env): Outcome<State>
    requires M.ValidEnv(env)
  {
    var reduced :- M.Reduce(s.messageStore, a.messages, env);
    var updates := ReduceUpdatesCurrentAsOf(s.updatesCurrentAsOf, a);
    if a.statusAfter != Connected && !Exempt(a.kind) then
      Ok(State(reduced.0.(currentAsOf := s.messageStore.currentAsOf), s.updatesCurrentAsOf, a.statusAfter))
    else Ok(State(reduced.0, updates, a.statusAfter))
  }

  /** No message action but a login moves the message checkpoint back; fetched pages of old messages and
      pushed updates do not move it at all. */
  lemma MessageCheckpointGrows(store: Store, action: M.Action, env: M.Env)
    requires M.ValidEnv(env) && !action.LoginSuccess? && M.Reduce(store, action, env).Ok?
    ensures M.Reduce(store, action, env).value.0.currentAsOf >= store.currentAsOf
    ensures action.ProcessUpdates? || action.SaveMessages? ==> M.Reduce(store, action, env).value.0.currentAsOf == store.currentAsOf
  {
    match M.Delivered(action)
    case Some(p) => MergeCheckpoint(store, p.infos, p.statuses, env);
    case None => OtherCheckpoint(store, action, env);
  }

  lemma MergeCheckpoint(store: Store, infos: seq<Message>, statuses: map<string, Status>, env: M.Env)
    requires M.ValidEnv(env)
    ensures M.MergeNewMessages(store, infos, statuses, env).Ok? ==>
      M.MergeNewMessages(store, infos, statuses, env).value.0.currentAsOf >= store.currentAsOf
  {
    var r := M.MergeNewMessages(store, infos, statuses, env);
    if r.Ok? {
      UpdatedCheckpoint(store, env);
      var u := M.Updated(store, env).value;
      var inc := M.IncomingOf(infos, statuses, u, env).value;
      IncomingCheckpoint(inc, u.store, env);
      assert r.value.0 == M.MergeIncoming(inc, u.store, env).value;
    }
  }

  lemma IncomingCheckpoint(inc: M.Incoming, u: Store, env: M.Env)
    requires M.ValidEnv(env)
    ensures M.MergeIncoming(inc, u, env).Ok? ==> M.MergeIncoming(inc, u, env).value.currentAsOf >= u.currentAsOf
  {
  }

  lemma UpdatedCheckpoint(store: Store, env: M.Env)
    requires M.ValidEnv(env)
    ensures M.Updated(store, env).Ok? ==> M.Updated(store, env).value.store.currentAsOf == store.currentAsOf
  {
  }

  lemma OtherCheckpoint(store: Store, action: M.Action, env: M.Env)
    requires M.ValidEnv(env) && !action.LoginSuccess? && M.ReduceOther(store, action, env).Ok?
    ensures M.ReduceOther(store, action, env).value.0.currentAsOf == store.currentAsOf
  {
    UpdatedCheckpoint(store, env);
  }

  // ----- runs -----

  datatype Run = Start(state: State) | Then(before: Run, action: Action, env: M.Env)

  ghost predicate Possible(run: Run) {
    run.Then? ==>
      && Possible(run.before) && M.ValidEnv(run.env) && WellKinded(run.action)
      && Final(run.before).Ok? && BaseReduce(Final(run.before).value, run.action, run.env).Ok?
  }

  ghost function Final(run: Run): Outcome<State> {
    match run
    case Start(state) => Ok(state)
    case Then(before, action, env) =>
      var s :- Final(before);
      if M.ValidEnv(env) then BaseReduce(s, action, env) else Throw
  }

  ghost function Initial(run: Run): State {
    match run
    case Start(state) => state
    case Then(before, _, _) => Initial(before)
  }

  /** No login, registration or state sync in the run. */
  ghost predicate Ordinary(run: Run) {
    run.Then? ==> !Exempt(run.action.kind) && Ordinary(run.before)
  }

  /** No step of the run ends connected. */
  ghost predicate NeverConnected(run: Run) {
    run.Then? ==> run.action.statusAfter != Connected && NeverConnected(run.before)
  }

  /** One ordinary step: checkpoints do not go back, and only a step that ends connected moves them. */
  lemma StepCheckpoints(s: State, a: Action, env: M.Env)
    requires M.ValidEnv(env) && WellKinded(a) && !Exempt(a.kind) && BaseReduce(s, a, env).Ok?
    ensures var t := BaseReduce(s, a, env).value;
      && t.messageStore.currentAsOf >= s.messageStore.currentAsOf
      && t.updatesCurrentAsOf >= s.updatesCurrentAsOf
      && (t.status != Connected ==> t.messageStore.currentAsOf == s.messageStore.currentAsOf && t.updatesCurrentAsOf == s.updatesCurrentAsOf)
  {
    MessageCheckpointGrows(s.messageStore, a.messages, env);
  }

  /** Without a login, registration or state sync, neither checkpoint ever goes back, and neither moves
      while the client is not connected. */
  lemma {:induction false} RunCheckpoints(run: Run)
    requires Possible(run) && Ordinary(run)
    ensures Final(run).Ok?
    ensures Final(run).value.messageStore.currentAsOf >= Initial(run).messageStore.currentAsOf
    ensures Final(run).value.updatesCurrentAsOf >= Initial(run).updatesCurrentAsOf
    ensures NeverConnected(run) ==>
      (Final(run).value.messageStore.currentAsOf == Initial(run).messageStore.currentAsOf
       && Final(run).value.updatesCurrentAsOf == Initial(run).updatesCurrentAsOf)
  {
    if run.Then? {
      RunCheckpoints(run.before);
      StepCheckpoints(Final(run.before).value, run.action, run.env);
    }
  }
}
