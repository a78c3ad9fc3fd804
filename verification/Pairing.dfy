/** Courier pairing: a one-time token exchanged for a key in separately committed steps,
    by any number of concurrent exchanges. */
module Pairing {
  import opened Wrappers

  type Id = string
  type Nonce = string

  datatype TokenKind = CourierToken | ExtensionToken

  /** What verifying a token yields; verification itself is an oracle. */
  datatype Token = Token(kind: TokenKind, nonce: Nonce)

  datatype Scope = CourierPairing | OtherScope

  /** A stored key; its hash is represented by the one secret it verifies. */
  datatype Key = Key(scope: Scope, secret: string, expiresAt: Option<int>, revoked: bool)

  datatype Agent = Agent(pairRef: Option<Id>)

  datatype Reply = Paired(secret: string, agent: Id) | BadToken | WrongKind | AlreadyUsed | Internal

  /** Where an exchange stands between two awaited steps. */
  datatype Phase =
    | Verified
    | NonceUnspent
    | AgentMade(agent: Id)
    | KeyMinted(agent: Id, key: Id, secret: string)
    | LinkChecked(agent: Id, key: Id, secret: string)
    | Linked(agent: Id, key: Id, secret: string)
    | IdentityKnown(agent: Id, key: Id, secret: string)
    | Finished(reply: Reply, agent: Id, key: Id)

  datatype Exchange = Exchange(nonce: Nonce, phase: Phase)

  datatype World = World(agents: map<Id, Agent>, keys: map<Id, Key>, nonces: map<Nonce, Id>,
    exchanges: map<nat, Exchange>)

  /** One step of one exchange, with the values it would generate and the fault it may meet;
      or the removal of an agent, which cascades to the nonce rows that name it; or the revocation of a key. */
  datatype Action =
    | Begin(eid: nat, token: Option<Token>)
    | CheckNonce(eid: nat, fault: bool)
    | MakeAgent(eid: nat, newId: Id, fault: bool)
    | MintKey(eid: nat, newKey: Id, secret: string, fault: bool)
    | CheckAgent(eid: nat, fault: bool)
    | LinkKey(eid: nat, fault: bool)
    | KnowIdentity(eid: nat, bootstrapped: bool)
    | ConsumeNonce(eid: nat, fault: bool)
    | DeleteAgent(agent: Id)
    | RevokeKey(key: Id)

  predicate At(w: World, eid: nat) {
    eid in w.exchanges
  }

  predicate SecretTaken(w: World, secret: string) {
    exists k :: k in w.keys && w.keys[k].secret == secret
  }

  predicate KeyTaken(w: World, agent: Id, key: Id) {
    exists b :: b in w.agents && b != agent && w.agents[b].pairRef == Some(key)
  }

  /** The agent insert commits. */
  predicate Makes(w: World, a: Action) {
    a.MakeAgent? && At(w, a.eid) && w.exchanges[a.eid].phase == NonceUnspent && !a.fault && a.newId !in w.agents
  }

  /** The key insert commits. A freshly generated secret never equals one already stored. */
  predicate Mints(w: World, a: Action) {
    a.MintKey? && At(w, a.eid) && w.exchanges[a.eid].phase.AgentMade? && !SecretTaken(w, a.secret) && !a.fault &&
      a.newKey !in w.keys
  }

  /** The link update runs: the unique index on key references is not violated. */
  predicate Links(w: World, a: Action) {
    && a.LinkKey? && At(w, a.eid) && w.exchanges[a.eid].phase.LinkChecked? && !a.fault
    && !KeyTaken(w, w.exchanges[a.eid].phase.agent, w.exchanges[a.eid].phase.key)
  }

  /** The nonce insert commits: primary key free, referenced agent present, no other fault. */
  predicate Consumes(w: World, a: Action) {
    && a.ConsumeNonce? && At(w, a.eid) && w.exchanges[a.eid].phase.IdentityKnown? && !a.fault
    && w.exchanges[a.eid].nonce !in w.nonces && w.exchanges[a.eid].phase.agent in w.agents
  }

  function AgentsAfter(w: World, a: Action): map<Id, Agent> {
    if Makes(w, a) then w.agents[a.newId := Agent(None)]
    else if Links(w, a) then
      // An update whose row has gone touches nothing and still reports success.
      var p := w.exchanges[a.eid].phase;
      if p.agent in w.agents then w.agents[p.agent := Agent(Some(p.key))] else w.agents
    else if a.DeleteAgent? then w.agents - {a.agent}
    else w.agents
  }

  function KeysAfter(w: World, a: Action): map<Id, Key> {
    if Mints(w, a) then w.keys[a.newKey := Key(CourierPairing, a.secret, None, false)]
    else if a.RevokeKey? && a.key in w.keys then w.keys[a.key := w.keys[a.key].(revoked := true)]
    else w.keys
  }

  function NoncesAfter(w: World, a: Action): map<Nonce, Id> {
    if Consumes(w, a) then w.nonces[w.exchanges[a.eid].nonce := w.exchanges[a.eid].phase.agent]
    else if a.DeleteAgent? then map n | n in w.nonces && w.nonces[n] != a.agent :: w.nonces[n]
    else w.nonces
  }

  /** How the addressed exchange goes on. */
  function PhaseAfter(w: World, e: Exchange, a: Action): Phase {
    var p := e.phase;
    match a
    case CheckNonce(_, fault) =>
      if p != Verified then p
      else if fault then Finished(Internal, "", "")
      else if e.nonce in w.nonces then Finished(AlreadyUsed, "", "")
      else NonceUnspent
    case MakeAgent(_, newId, fault) =>
      if p != NonceUnspent then p
      else if fault || newId in w.agents then Finished(Internal, "", "")
      else AgentMade(newId)
    case MintKey(_, newKey, secret, fault) =>
      if !p.AgentMade? || SecretTaken(w, secret) then p
      else if fault || newKey in w.keys then Finished(Internal, "", "")
      else KeyMinted(p.agent, newKey, secret)
    case CheckAgent(_, fault) =>
      if !p.KeyMinted? then p
      else if fault || p.agent !in w.agents then Finished(Internal, "", "")
      else LinkChecked(p.agent, p.key, p.secret)
    case LinkKey(_, fault) =>
      if !p.LinkChecked? then p
      else if fault || KeyTaken(w, p.agent, p.key) then Finished(Internal, "", "")
      else Linked(p.agent, p.key, p.secret)
    case KnowIdentity(_, bootstrapped) =>
      if !p.Linked? then p
      else if !bootstrapped then Finished(Internal, "", "")
      else IdentityKnown(p.agent, p.key, p.secret)
    case ConsumeNonce(_, fault) =>
      if !p.IdentityKnown? then p
      // A taken primary key and a missing agent are both constraint violations, answered alike.
      else if e.nonce in w.nonces || p.agent !in w.agents then Finished(AlreadyUsed, "", "")
      else if fault then Finished(Internal, "", "")
      else Finished(Paired(p.secret, p.agent), p.agent, p.key)
    case _ => p
  }

  function FirstPhase(token: Option<Token>): Phase {
    if token.None? then Finished(BadToken, "", "")
    else if token.value.kind != CourierToken then Finished(WrongKind, "", "")
    else Verified
  }

  function ExchangesAfter(w: World, a: Action): map<nat, Exchange> {
    if a.DeleteAgent? || a.RevokeKey? then w.exchanges
    else if a.Begin? then
      if At(w, a.eid) then w.exchanges
      else w.exchanges[a.eid := Exchange(if a.token.Some? then a.token.value.nonce else "", FirstPhase(a.token))]
    else if !At(w, a.eid) then w.exchanges
    else w.exchanges[a.eid := w.exchanges[a.eid].(phase := PhaseAfter(w, w.exchanges[a.eid], a))]
  }

  function Step(w: World, a: Action): World {
    World(AgentsAfter(w, a), KeysAfter(w, a), NoncesAfter(w, a), ExchangesAfter(w, a))
  }

  function Run(w: World, actions: seq<Action>): World {
    if actions == [] then w else Step(Run(w, actions[..|actions| - 1]), actions[|actions| - 1])
  }

  // ---------------------------------------------------------------- at most one success

  /** How often a run answers "paired" for a nonce. */
  function Successes(w: World, actions: seq<Action>, n: Nonce): nat {
    if actions == [] then 0
    else
      var init, a := actions[..|actions| - 1], actions[|actions| - 1];
      var now := Run(w, init);
      Successes(w, init, n) + if Consumes(now, a) && now.exchanges[a.eid].nonce == n then 1 else 0
  }

  /** How often a run's agent deletions cascade away the row of a nonce. */
  function Cascades(w: World, actions: seq<Action>, n: Nonce): nat {
    if actions == [] then 0
    else
      var init, a := actions[..|actions| - 1], actions[|actions| - 1];
      var now := Run(w, init);
      Cascades(w, init, n) + if a.DeleteAgent? && n in now.nonces && now.nonces[n] == a.agent then 1 else 0
  }

  /** In every run the successes for a nonce are its row, if it has one, plus its cascaded rows:
      so one at most, and one more for each deletion of the agent that spent it. */
  lemma {:induction false} SuccessesAreRows(w: World, actions: seq<Action>, n: Nonce)
    requires n !in w.nonces
    ensures Successes(w, actions, n) == Cascades(w, actions, n) + if n in Run(w, actions).nonces then 1 else 0
  {
    if actions != [] {
      SuccessesAreRows(w, actions[..|actions| - 1], n);
    }
  }

  /** The reply "paired" is given exactly by the steps that commit the nonce row. */
  lemma PairedIffConsumed(w: World, a: Action, eid: nat)
    requires At(w, eid) && !w.exchanges[eid].phase.Finished?
    ensures var e := Step(w, a).exchanges[eid];
      && (e.phase.Finished? && e.phase.reply.Paired? <==> Consumes(w, a) && a.eid == eid)
      && (e.phase.Finished? && !e.phase.reply.Paired? ==> Step(w, a).nonces == w.nonces)
  {
    match a case _ =>
  }

  // ---------------------------------------------------------------- runs without agent deletion

  predicate NoDeletion(actions: seq<Action>) {
    forall k :: 0 <= k < |actions| ==> !actions[k].DeleteAgent?
  }

  function AgentOf(p: Phase): Option<Id> {
    match p
    case Verified => None
    case NonceUnspent => None
    case AgentMade(a) => Some(a)
    case KeyMinted(a, _, _) => Some(a)
    case LinkChecked(a, _, _) => Some(a)
    case Linked(a, _, _) => Some(a)
    case IdentityKnown(a, _, _) => Some(a)
    case Finished(r, a, _) => if r.Paired? then Some(a) else None
  }

  function KeyOf(p: Phase): Option<Id> {
    match p
    case KeyMinted(_, k, _) => Some(k)
    case LinkChecked(_, k, _) => Some(k)
    case Linked(_, k, _) => Some(k)
    case IdentityKnown(_, k, _) => Some(k)
    case Finished(r, _, k) => if r.Paired? then Some(k) else None
    case _ => None
  }

  function SecretOf(p: Phase): string
    requires KeyOf(p).Some?
  {
    match p
    case KeyMinted(_, _, s) => s
    case LinkChecked(_, _, s) => s
    case Linked(_, _, s) => s
    case IdentityKnown(_, _, s) => s
    case Finished(r, _, _) => r.secret
  }

  predicate IsLinked(p: Phase) {
    p.Linked? || p.IdentityKnown? || (p.Finished? && p.reply.Paired?)
  }

  /** The rows an exchange has created are still there, and linked once it has linked them. */
  ghost predicate ExchangeOk(agents: map<Id, Agent>, keys: map<Id, Key>, nonces: map<Nonce, Id>, e: Exchange) {
    var a, k, linked := AgentOf(e.phase), KeyOf(e.phase), IsLinked(e.phase);
    && (a.Some? ==> a.value in agents && agents[a.value].pairRef == if linked then k else None)
    && (k.Some? ==>
         && k.value in keys
         && keys[k.value].(revoked := false) == Key(CourierPairing, SecretOf(e.phase), None, false))
    && (k.Some? && !linked ==> forall b :: b in agents ==> agents[b].pairRef != k)
    && (e.phase.Finished? && e.phase.reply.Paired? ==>
         e.phase.reply.agent == e.phase.agent && e.nonce in nonces && nonces[e.nonce] == e.phase.agent)
  }

  /** Key references point at stored keys and no two agents share one; no two keys share a secret. */
  ghost predicate TablesOk(agents: map<Id, Agent>, keys: map<Id, Key>) {
    && (forall a :: a in agents && agents[a].pairRef.Some? ==> agents[a].pairRef.value in keys)
    && (forall a, b :: a in agents && b in agents && a != b && agents[a].pairRef.Some? ==>
         agents[a].pairRef != agents[b].pairRef)
    && (forall k, l :: k in keys && l in keys && k != l ==> keys[k].secret != keys[l].secret)
  }

  /** Two exchanges hold no agent and no key in common. */
  ghost predicate Apart(x: Phase, y: Phase) {
    && (AgentOf(x).Some? ==> AgentOf(x) != AgentOf(y))
    && (KeyOf(x).Some? ==> KeyOf(x) != KeyOf(y))
  }

  ghost predicate AllApart(exchanges: map<nat, Exchange>) {
    forall e, f :: e in exchanges && f in exchanges && e != f ==> Apart(exchanges[e].phase, exchanges[f].phase)
  }

  ghost predicate AllOk(agents: map<Id, Agent>, keys: map<Id, Key>, nonces: map<Nonce, Id>,
    exchanges: map<nat, Exchange>) {
    forall e :: e in exchanges ==> ExchangeOk(agents, keys, nonces, exchanges[e])
  }

  ghost predicate Inv(w: World) {
    TablesOk(w.agents, w.keys) && AllOk(w.agents, w.keys, w.nonces, w.exchanges) && AllApart(w.exchanges)
  }

  predicate Won(w: World, e: nat, n: Nonce) {
    e in w.exchanges && w.exchanges[e].nonce == n && w.exchanges[e].phase.Finished? &&
      w.exchanges[e].phase.reply.Paired?
  }

  /** A spent nonce was spent before the run or by an exchange that was told so. */
  ghost predicate SpentByWinner(w: World, before: map<Nonce, Id>) {
    forall n :: n in w.nonces && n !in before ==> exists e :: Won(w, e, n)
  }

  lemma StepKeepsTables(w: World, a: Action)
    requires Inv(w) && !a.DeleteAgent? && !a.RevokeKey?
    ensures TablesOk(AgentsAfter(w, a), KeysAfter(w, a))
  {
    if Links(w, a) {
      assert ExchangeOk(w.agents, w.keys, w.nonces, w.exchanges[a.eid]);
    }
  }

  /** An exchange that takes no step keeps its rows. */
  lemma StepKeepsOthers(w: World, a: Action, e: nat)
    requires Inv(w) && !a.DeleteAgent? && !a.RevokeKey? && At(w, e) && (a.eid == e ==> a.Begin?)
    ensures ExchangeOk(AgentsAfter(w, a), KeysAfter(w, a), NoncesAfter(w, a), w.exchanges[e])
  {
    if Makes(w, a) || Mints(w, a) || Consumes(w, a) {
      InsertKeepsOthers(w, a, e);
    } else if Links(w, a) {
      LinkKeepsOthers(w, a, e);
    } else {
      QuietTables(w, a);
    }
  }

  lemma InsertKeepsOthers(w: World, a: Action, e: nat)
    requires Inv(w) && At(w, e) && (Makes(w, a) || Mints(w, a) || Consumes(w, a))
    ensures ExchangeOk(AgentsAfter(w, a), KeysAfter(w, a), NoncesAfter(w, a), w.exchanges[e])
  {
    assert ExchangeOk(w.agents, w.keys, w.nonces, w.exchanges[e]);
  }

  lemma LinkKeepsOthers(w: World, a: Action, e: nat)
    requires Inv(w) && At(w, e) && a.LinkKey? && a.eid != e && Links(w, a)
    ensures ExchangeOk(AgentsAfter(w, a), KeysAfter(w, a), NoncesAfter(w, a), w.exchanges[e])
  {
    var x := w.exchanges[e];
    assert ExchangeOk(w.agents, w.keys, w.nonces, x) && Apart(x.phase, w.exchanges[a.eid].phase);
  }

  /** The exchange that takes the step keeps its rows and holds those it has just made. */
  lemma StepKeepsOwn(w: World, a: Action)
    requires Inv(w) && !a.DeleteAgent? && !a.RevokeKey? && !a.Begin? && At(w, a.eid)
    ensures ExchangeOk(AgentsAfter(w, a), KeysAfter(w, a), NoncesAfter(w, a),
              w.exchanges[a.eid].(phase := PhaseAfter(w, w.exchanges[a.eid], a)))
  {
    if Makes(w, a) || Mints(w, a) || Links(w, a) || Consumes(w, a) {
      WriterKeepsOwn(w, a);
    } else {
      QuietTables(w, a);
      QuietKeepsOwn(w, a);
    }
  }

  lemma QuietTables(w: World, a: Action)
    requires !Makes(w, a) && !Mints(w, a) && !Links(w, a) && !Consumes(w, a) && !a.DeleteAgent? && !a.RevokeKey?
    ensures AgentsAfter(w, a) == w.agents && KeysAfter(w, a) == w.keys && NoncesAfter(w, a) == w.nonces
  {
  }

  lemma QuietKeepsOwn(w: World, a: Action)
    requires Inv(w) && !a.DeleteAgent? && !a.RevokeKey? && !a.Begin? && At(w, a.eid)
    requires !Makes(w, a) && !Mints(w, a) && !Links(w, a) && !Consumes(w, a)
    ensures ExchangeOk(w.agents, w.keys, w.nonces, w.exchanges[a.eid].(phase := PhaseAfter(w, w.exchanges[a.eid], a)))
  {
    assert ExchangeOk(w.agents, w.keys, w.nonces, w.exchanges[a.eid]);
  }

  lemma WriterKeepsOwn(w: World, a: Action)
    requires Inv(w) && (Makes(w, a) || Mints(w, a) || Links(w, a) || Consumes(w, a))
    ensures ExchangeOk(AgentsAfter(w, a), KeysAfter(w, a), NoncesAfter(w, a),
              w.exchanges[a.eid].(phase := PhaseAfter(w, w.exchanges[a.eid], a)))
  {
    if Makes(w, a) || Mints(w, a) {
      InserterKeepsOwn(w, a);
    } else {
      assert ExchangeOk(w.agents, w.keys, w.nonces, w.exchanges[a.eid]);
    }
  }

  lemma InserterKeepsOwn(w: World, a: Action)
    requires Inv(w) && (Makes(w, a) || Mints(w, a))
    ensures ExchangeOk(AgentsAfter(w, a), KeysAfter(w, a), NoncesAfter(w, a),
              w.exchanges[a.eid].(phase := PhaseAfter(w, w.exchanges[a.eid], a)))
  {
    assert ExchangeOk(w.agents, w.keys, w.nonces, w.exchanges[a.eid]);
  }

  /** A step keeps or gives up what the exchange holds, or adds an id no table knows yet. */
  lemma StepHolds(w: World, x: Exchange, a: Action)
    ensures var p := PhaseAfter(w, x, a);
      && (AgentOf(p).Some? && AgentOf(p) != AgentOf(x.phase) ==> AgentOf(p).value !in w.agents)
      && (KeyOf(p).Some? && KeyOf(p) != KeyOf(x.phase) ==> KeyOf(p).value !in w.keys)
  {
    match a case _ =>
  }

  lemma StepKeepsApart(w: World, a: Action, e: nat)
    requires Inv(w) && !a.DeleteAgent? && !a.RevokeKey? && !a.Begin? && At(w, a.eid) && At(w, e) && a.eid != e
    ensures var p := PhaseAfter(w, w.exchanges[a.eid], a);
      Apart(p, w.exchanges[e].phase) && Apart(w.exchanges[e].phase, p)
  {
    var x, y, p := w.exchanges[a.eid], w.exchanges[e], PhaseAfter(w, w.exchanges[a.eid], a);
    StepHolds(w, x, a);
    assert ExchangeOk(w.agents, w.keys, w.nonces, y) && Apart(x.phase, y.phase) && Apart(y.phase, x.phase);
  }

  lemma StoredKeepsInv(agents: map<Id, Agent>, keys: map<Id, Key>, nonces: map<Nonce, Id>,
    exchanges: map<nat, Exchange>, eid: nat, x: Exchange)
    requires AllApart(exchanges) && ExchangeOk(agents, keys, nonces, x)
    requires forall e :: e in exchanges && e != eid ==> ExchangeOk(agents, keys, nonces, exchanges[e])
    requires forall e :: e in exchanges && e != eid ==>
      Apart(x.phase, exchanges[e].phase) && Apart(exchanges[e].phase, x.phase)
    ensures AllOk(agents, keys, nonces, exchanges[eid := x]) && AllApart(exchanges[eid := x])
  {
  }

  lemma BeginKeepsInv(w: World, a: Action)
    requires Inv(w) && a.Begin?
    ensures Inv(Step(w, a))
  {
    var x := Exchange(if a.token.Some? then a.token.value.nonce else "", FirstPhase(a.token));
    StoredKeepsInv(w.agents, w.keys, w.nonces, w.exchanges, a.eid, x);
  }

  lemma ExchangeStepKeepsInv(w: World, a: Action)
    requires Inv(w) && !a.DeleteAgent? && !a.RevokeKey? && !a.Begin?
    ensures Inv(Step(w, a))
  {
    var agents, keys, nonces := AgentsAfter(w, a), KeysAfter(w, a), NoncesAfter(w, a);
    StepKeepsTables(w, a);
    if At(w, a.eid) {
      var x := w.exchanges[a.eid].(phase := PhaseAfter(w, w.exchanges[a.eid], a));
      forall e | At(w, e) && a.eid != e
        ensures ExchangeOk(agents, keys, nonces, w.exchanges[e])
        ensures Apart(x.phase, w.exchanges[e].phase) && Apart(w.exchanges[e].phase, x.phase)
      {
        StepKeepsOthers(w, a, e);
        StepKeepsApart(w, a, e);
      }
      StepKeepsOwn(w, a);
      StoredKeepsInv(agents, keys, nonces, w.exchanges, a.eid, x);
    }
  }

  /** Revoking a key changes nothing the exchanges rely on. */
  lemma RevocationKeepsInv(w: World, key: Id)
    requires Inv(w)
    ensures Inv(Step(w, RevokeKey(key)))
  {
    var a := RevokeKey(key);
    assert AgentsAfter(w, a) == w.agents && NoncesAfter(w, a) == w.nonces && ExchangesAfter(w, a) == w.exchanges;
    forall e | e in w.exchanges
      ensures ExchangeOk(w.agents, KeysAfter(w, a), w.nonces, w.exchanges[e])
    {
      assert ExchangeOk(w.agents, w.keys, w.nonces, w.exchanges[e]);
    }
  }

  lemma StepKeepsInv(w: World, a: Action)
    requires Inv(w) && !a.DeleteAgent?
    ensures Inv(Step(w, a))
  {
    if a.RevokeKey? {
      RevocationKeepsInv(w, a.key);
    } else if a.Begin? {
      BeginKeepsInv(w, a);
    } else {
      ExchangeStepKeepsInv(w, a);
    }
  }

  lemma StepKeepsWinner(w: World, a: Action, before: map<Nonce, Id>)
    requires SpentByWinner(w, before) && !a.DeleteAgent?
    ensures SpentByWinner(Step(w, a), before)
  {
    var w' := Step(w, a);
    forall n | n in w'.nonces && n !in before
      ensures exists e :: Won(w', e, n)
    {
      if n in w.nonces {
        var e :| Won(w, e, n);
        assert Won(w', e, n);
      } else {
        assert Won(w', a.eid, n);
      }
    }
  }

  lemma {:induction false} RunKeepsInv(w: World, actions: seq<Action>)
    requires TablesOk(w.agents, w.keys) && w.exchanges == map[] && NoDeletion(actions)
    ensures Inv(Run(w, actions)) && SpentByWinner(Run(w, actions), w.nonces)
  {
    if actions != [] {
      RunKeepsInv(w, actions[..|actions| - 1]);
      StepKeepsInv(Run(w, actions[..|actions| - 1]), actions[|actions| - 1]);
      StepKeepsWinner(Run(w, actions[..|actions| - 1]), actions[|actions| - 1], w.nonces);
    }
  }

  lemma OneWinner(w: World, n: Nonce, e: nat, f: nat)
    requires Inv(w) && Won(w, e, n) && Won(w, f, n)
    ensures e == f
  {
    assert ExchangeOk(w.agents, w.keys, w.nonces, w.exchanges[e]) &&
      ExchangeOk(w.agents, w.keys, w.nonces, w.exchanges[f]);
    assert e != f ==> Apart(w.exchanges[e].phase, w.exchanges[f].phase);
  }

  /** One-shot: of all concurrent exchanges of one token at most one is answered "paired". */
  lemma OneShot(w: World, actions: seq<Action>, n: Nonce, e: nat, f: nat)
    requires TablesOk(w.agents, w.keys) && w.exchanges == map[] && NoDeletion(actions)
    requires Won(Run(w, actions), e, n) && Won(Run(w, actions), f, n)
    ensures e == f
  {
    RunKeepsInv(w, actions);
    OneWinner(Run(w, actions), n, e, f);
  }

  lemma UnspentWithoutWinner(w: World, before: map<Nonce, Id>, n: Nonce)
    requires SpentByWinner(w, before) && n !in before && forall e :: !Won(w, e, n)
    ensures n !in w.nonces
  {
  }

  /** If nobody has been answered "paired", whatever else happened, the nonce is unspent. */
  lemma FailuresLeaveNonceUnspent(w: World, actions: seq<Action>, n: Nonce)
    requires TablesOk(w.agents, w.keys) && w.exchanges == map[] && NoDeletion(actions) && n !in w.nonces
    requires forall e :: !Won(Run(w, actions), e, n)
    ensures n !in Run(w, actions).nonces
  {
    RunKeepsInv(w, actions);
    UnspentWithoutWinner(Run(w, actions), w.nonces, n);
  }

  // ---------------------------------------------------------------- a fault-free exchange run alone

  datatype Faults = Faults(nonceRead: bool, agentInsert: bool, keyInsert: bool, agentRead: bool,
                           linkUpdate: bool, identityMissing: bool, nonceInsert: bool)

  const NO_FAULTS := Faults(false, false, false, false, false, false, false)

  /** One exchange: the values it would generate and the faults it would meet. */
  datatype Plan = Plan(eid: nat, nonce: Nonce, newId: Id, newKey: Id, secret: string, faults: Faults)

  function Schedule(p: Plan): (r: seq<Action>)
    ensures |r| == 7
  {
    [ CheckNonce(p.eid, p.faults.nonceRead), MakeAgent(p.eid, p.newId, p.faults.agentInsert),
      MintKey(p.eid, p.newKey, p.secret, p.faults.keyInsert), CheckAgent(p.eid, p.faults.agentRead),
      LinkKey(p.eid, p.faults.linkUpdate), KnowIdentity(p.eid, !p.faults.identityMissing),
      ConsumeNonce(p.eid, p.faults.nonceInsert) ]
  }

  function Perform(w: World, actions: seq<Action>): World
    decreases |actions|
  {
    if actions == [] then w else Perform(Step(w, actions[0]), actions[1..])
  }

  /** The steps of an exchange from the k-th on, with nothing in between. */
  function Alone(w: World, p: Plan, k: nat): World
    requires k <= 7
  {
    Perform(w, Schedule(p)[k..])
  }

  /** The same world with this exchange in another phase. */
  function In(w: World, p: Plan, phase: Phase): World {
    w.(exchanges := w.exchanges[p.eid := Exchange(p.nonce, phase)])
  }

  /** The k-th step takes the exchange from phase `x` in one world to phase `y` in another. */
  ghost predicate Goes(w: World, p: Plan, k: nat, x: Phase, w': World, y: Phase)
    requires k < 7
  {
    Step(In(w, p, x), Schedule(p)[k]) == In(w', p, y)
  }

  lemma AnsweredGoesNowhere(w: World, p: Plan, k: nat, phase: Phase)
    requires k < 7 && phase.Finished?
    ensures Goes(w, p, k, phase, w, phase)
  {
    assert Step(In(w, p, phase), Schedule(p)[k]).exchanges == In(w, p, phase).exchanges;
  }

  /** An exchange that has answered does nothing more. */
  lemma {:induction false} AnsweredStays(w: World, p: Plan, k: nat, phase: Phase)
    requires k <= 7 && phase.Finished?
    ensures Alone(In(w, p, phase), p, k) == In(w, p, phase)
    decreases 7 - k
  {
    if k < 7 {
      AnsweredGoesNowhere(w, p, k, phase);
      AloneStep(w, p, k, phase, w, phase);
      AnsweredStays(w, p, k + 1, phase);
    }
  }

  lemma AloneStep(w: World, p: Plan, k: nat, x: Phase, w': World, y: Phase)
    requires k < 7 && Goes(w, p, k, x, w', y)
    ensures Alone(In(w, p, x), p, k) == Alone(In(w', p, y), p, k + 1)
  {
    assert Schedule(p)[k..][0] == Schedule(p)[k] && Schedule(p)[k..][1..] == Schedule(p)[k + 1..];
  }

  /** Alone, the exchange goes on from phase `y`, or ends there if that is its answer. */
  lemma AloneGoes(w: World, p: Plan, k: nat, x: Phase, w': World, y: Phase)
    requires k < 7 && Goes(w, p, k, x, w', y)
    ensures Alone(In(w, p, x), p, k) == if y.Finished? then In(w', p, y) else Alone(In(w', p, y), p, k + 1)
  {
    AloneStep(w, p, k, x, w', y);
    if y.Finished? {
      AnsweredStays(w', p, k + 1, y);
    }
  }

  const FAILED := Finished(Internal, "", "")

  lemma AfterCheckNonce(w: World, p: Plan)
    ensures Goes(w, p, 0, Verified, w,
              if p.faults.nonceRead then FAILED else if p.nonce in w.nonces then Finished(AlreadyUsed, "", "")
                else NonceUnspent)
  {
  }

  lemma AfterMakeAgent(w: World, p: Plan)
    ensures p.faults.agentInsert || p.newId in w.agents ==> Goes(w, p, 1, NonceUnspent, w, FAILED)
    ensures !p.faults.agentInsert && p.newId !in w.agents ==>
      Goes(w, p, 1, NonceUnspent, w.(agents := w.agents[p.newId := Agent(None)]), AgentMade(p.newId))
  {
    var now := In(w, p, NonceUnspent);
    assert now.exchanges[p.eid] == Exchange(p.nonce, NonceUnspent);
  }

  lemma AfterMintKey(w: World, p: Plan)
    requires !SecretTaken(w, p.secret)
    ensures p.faults.keyInsert || p.newKey in w.keys ==> Goes(w, p, 2, AgentMade(p.newId), w, FAILED)
    ensures !p.faults.keyInsert && p.newKey !in w.keys ==>
      Goes(w, p, 2, AgentMade(p.newId), w.(keys := w.keys[p.newKey := Key(CourierPairing, p.secret, None, false)]),
           KeyMinted(p.newId, p.newKey, p.secret))
  {
    var now := In(w, p, AgentMade(p.newId));
    assert now.exchanges[p.eid] == Exchange(p.nonce, AgentMade(p.newId));
    assert !SecretTaken(now, p.secret);
  }

  lemma AfterCheckAgent(w: World, p: Plan)
    requires p.newId in w.agents
    ensures Goes(w, p, 3, KeyMinted(p.newId, p.newKey, p.secret), w,
                 if p.faults.agentRead then FAILED else LinkChecked(p.newId, p.newKey, p.secret))
  {
  }

  lemma AfterLinkKey(w: World, p: Plan)
    requires p.newId in w.agents
    ensures p.faults.linkUpdate || KeyTaken(w, p.newId, p.newKey) ==>
      Goes(w, p, 4, LinkChecked(p.newId, p.newKey, p.secret), w, FAILED)
    ensures !p.faults.linkUpdate && !KeyTaken(w, p.newId, p.newKey) ==>
      Goes(w, p, 4, LinkChecked(p.newId, p.newKey, p.secret), w.(agents := w.agents[p.newId := Agent(Some(p.newKey))]),
           Linked(p.newId, p.newKey, p.secret))
  {
    var now := In(w, p, LinkChecked(p.newId, p.newKey, p.secret));
    assert now.exchanges[p.eid] == Exchange(p.nonce, LinkChecked(p.newId, p.newKey, p.secret));
    assert KeyTaken(now, p.newId, p.newKey) == KeyTaken(w, p.newId, p.newKey);
  }

  lemma AfterKnowIdentity(w: World, p: Plan)
    ensures Goes(w, p, 5, Linked(p.newId, p.newKey, p.secret), w,
                 if p.faults.identityMissing then FAILED else IdentityKnown(p.newId, p.newKey, p.secret))
  {
  }

  lemma AfterConsumeNonce(w: World, p: Plan)
    requires p.newId in w.agents && p.nonce !in w.nonces
    ensures p.faults.nonceInsert ==> Goes(w, p, 6, IdentityKnown(p.newId, p.newKey, p.secret), w, FAILED)
    ensures !p.faults.nonceInsert ==>
      Goes(w, p, 6, IdentityKnown(p.newId, p.newKey, p.secret), w.(nonces := w.nonces[p.nonce := p.newId]),
           Finished(Paired(p.secret, p.newId), p.newId, p.newKey))
  {
  }

  // What an exchange run alone makes of each of its phases.

  lemma AloneVerified(w: World, p: Plan)
    ensures Alone(In(w, p, Verified), p, 0) ==
      if p.faults.nonceRead then In(w, p, FAILED)
      else if p.nonce in w.nonces then In(w, p, Finished(AlreadyUsed, "", ""))
      else Alone(In(w, p, NonceUnspent), p, 1)
  {
    AfterCheckNonce(w, p);
    AloneGoes(w, p, 0, Verified, w,
      if p.faults.nonceRead then FAILED else if p.nonce in w.nonces then Finished(AlreadyUsed, "", "")
        else NonceUnspent);
  }

  lemma AloneUnspent(w: World, p: Plan)
    ensures Alone(In(w, p, NonceUnspent), p, 1) ==
      if p.faults.agentInsert || p.newId in w.agents then In(w, p, FAILED)
      else Alone(In(w.(agents := w.agents[p.newId := Agent(None)]), p, AgentMade(p.newId)), p, 2)
  {
    AfterMakeAgent(w, p);
    if p.faults.agentInsert || p.newId in w.agents {
      AloneGoes(w, p, 1, NonceUnspent, w, FAILED);
    } else {
      AloneGoes(w, p, 1, NonceUnspent, w.(agents := w.agents[p.newId := Agent(None)]), AgentMade(p.newId));
    }
  }

  lemma AloneMade(w: World, p: Plan)
    requires !SecretTaken(w, p.secret)
    ensures Alone(In(w, p, AgentMade(p.newId)), p, 2) ==
      if p.faults.keyInsert || p.newKey in w.keys then In(w, p, FAILED)
      else Alone(In(w.(keys := w.keys[p.newKey := Key(CourierPairing, p.secret, None, false)]), p,
        KeyMinted(p.newId, p.newKey, p.secret)), p, 3)
  {
    AfterMintKey(w, p);
    if p.faults.keyInsert || p.newKey in w.keys {
      AloneGoes(w, p, 2, AgentMade(p.newId), w, FAILED);
    } else {
      AloneGoes(w, p, 2, AgentMade(p.newId), w.(keys := w.keys[p.newKey := Key(CourierPairing, p.secret, None, false)]),
        KeyMinted(p.newId, p.newKey, p.secret));
    }
  }

  lemma AloneMinted(w: World, p: Plan)
    requires p.newId in w.agents
    ensures Alone(In(w, p, KeyMinted(p.newId, p.newKey, p.secret)), p, 3) ==
      if p.faults.agentRead then In(w, p, FAILED) else Alone(In(w, p, LinkChecked(p.newId, p.newKey, p.secret)), p, 4)
  {
    AfterCheckAgent(w, p);
    AloneGoes(w, p, 3, KeyMinted(p.newId, p.newKey, p.secret), w,
      if p.faults.agentRead then FAILED else LinkChecked(p.newId, p.newKey, p.secret));
  }

  lemma AloneChecked(w: World, p: Plan)
    requires p.newId in w.agents
    ensures Alone(In(w, p, LinkChecked(p.newId, p.newKey, p.secret)), p, 4) ==
      if p.faults.linkUpdate || KeyTaken(w, p.newId, p.newKey) then In(w, p, FAILED)
      else Alone(In(w.(agents := w.agents[p.newId := Agent(Some(p.newKey))]), p,
        Linked(p.newId, p.newKey, p.secret)), p, 5)
  {
    AfterLinkKey(w, p);
    if p.faults.linkUpdate || KeyTaken(w, p.newId, p.newKey) {
      AloneGoes(w, p, 4, LinkChecked(p.newId, p.newKey, p.secret), w, FAILED);
    } else {
      AloneGoes(w, p, 4, LinkChecked(p.newId, p.newKey, p.secret),
        w.(agents := w.agents[p.newId := Agent(Some(p.newKey))]),
        Linked(p.newId, p.newKey, p.secret));
    }
  }

  lemma AloneLinked(w: World, p: Plan)
    ensures Alone(In(w, p, Linked(p.newId, p.newKey, p.secret)), p, 5) ==
      if p.faults.identityMissing then In(w, p, FAILED)
        else Alone(In(w, p, IdentityKnown(p.newId, p.newKey, p.secret)), p, 6)
  {
    AfterKnowIdentity(w, p);
    AloneGoes(w, p, 5, Linked(p.newId, p.newKey, p.secret), w,
      if p.faults.identityMissing then FAILED else IdentityKnown(p.newId, p.newKey, p.secret));
  }

  lemma AloneKnown(w: World, p: Plan)
    requires p.newId in w.agents && p.nonce !in w.nonces
    ensures Alone(In(w, p, IdentityKnown(p.newId, p.newKey, p.secret)), p, 6) ==
      if p.faults.nonceInsert then In(w, p, FAILED)
      else In(w.(nonces := w.nonces[p.nonce := p.newId]), p, Finished(Paired(p.secret, p.newId), p.newId, p.newKey))
  {
    AfterConsumeNonce(w, p);
    if p.faults.nonceInsert {
      AloneGoes(w, p, 6, IdentityKnown(p.newId, p.newKey, p.secret), w, FAILED);
    } else {
      AloneGoes(w, p, 6, IdentityKnown(p.newId, p.newKey, p.secret), w.(nonces := w.nonces[p.nonce := p.newId]),
        Finished(Paired(p.secret, p.newId), p.newId, p.newKey));
    }
  }

  /** The second half of a fault-free exchange, once its agent and key exist. */
  lemma CheckedSucceeds(w: World, p: Plan)
    requires p.newId in w.agents && !KeyTaken(w, p.newId, p.newKey) && p.nonce !in w.nonces && p.faults == NO_FAULTS
    ensures Alone(In(w, p, LinkChecked(p.newId, p.newKey, p.secret)), p, 4) ==
      In(w.(agents := w.agents[p.newId := Agent(Some(p.newKey))], nonces := w.nonces[p.nonce := p.newId]), p,
         Finished(Paired(p.secret, p.newId), p.newId, p.newKey))
  {
    var linked := w.(agents := w.agents[p.newId := Agent(Some(p.newKey))]);
    AloneChecked(w, p);
    AloneLinked(linked, p);
    AloneKnown(linked, p);
  }

  /** The first half. */
  lemma VerifiedIsChecked(w: World, p: Plan)
    requires p.nonce !in w.nonces && p.faults == NO_FAULTS
    requires p.newId !in w.agents && p.newKey !in w.keys && !SecretTaken(w, p.secret)
    ensures Alone(In(w, p, Verified), p, 0) ==
      Alone(In(w.(agents := w.agents[p.newId := Agent(None)],
        keys := w.keys[p.newKey := Key(CourierPairing, p.secret, None, false)]), p,
               LinkChecked(p.newId, p.newKey, p.secret)), p, 4)
  {
    var made := w.(agents := w.agents[p.newId := Agent(None)]);
    AloneVerified(w, p);
    AloneUnspent(w, p);
    AloneMade(made, p);
    AloneMinted(made.(keys := w.keys[p.newKey := Key(CourierPairing, p.secret, None, false)]), p);
  }

  /** While the nonce is unspent, a later fault-free exchange of the same token succeeds,
      whatever the exchanges before it left behind. */
  lemma RetrySucceeds(w: World, p: Plan)
    requires TablesOk(w.agents, w.keys) && p.nonce !in w.nonces && p.faults == NO_FAULTS
    requires p.newId !in w.agents && p.newKey !in w.keys && !SecretTaken(w, p.secret)
    ensures Won(Alone(In(w, p, Verified), p, 0), p.eid, p.nonce)
  {
    VerifiedIsChecked(w, p);
    CheckedSucceeds(w.(agents := w.agents[p.newId := Agent(None)],
      keys := w.keys[p.newKey := Key(CourierPairing, p.secret, None, false)]), p);
  }

  /** Retryable: after any run in which nobody was answered "paired", however the exchanges failed,
      the token can still be exchanged. */
  lemma FailedTokenCanBeRetried(w: World, actions: seq<Action>, p: Plan)
    requires TablesOk(w.agents, w.keys) && w.exchanges == map[] && NoDeletion(actions) && p.nonce !in w.nonces
    requires forall e :: !Won(Run(w, actions), e, p.nonce)
    requires p.newId !in Run(w, actions).agents && p.newKey !in Run(w, actions).keys &&
      !SecretTaken(Run(w, actions), p.secret)
    requires p.faults == NO_FAULTS
    ensures Won(Alone(In(Run(w, actions), p, Verified), p, 0), p.eid, p.nonce)
  {
    RunKeepsInv(w, actions);
    FailuresLeaveNonceUnspent(w, actions, p.nonce);
    RetrySucceeds(Run(w, actions), p);
  }

  // ---------------------------------------------------------------- authentication

  /** Resolving a presented secret: the unrevoked key row it verifies, unexpired and of courier scope, then the agent
      that references that key. Whichever matching row the tables yield first. */
  ghost function Authenticate(w: World, secret: string, now: int): Option<Id> {
    if k :| k in w.keys && !w.keys[k].revoked && w.keys[k].secret == secret then
      (if w.keys[k].expiresAt.Some? && w.keys[k].expiresAt.value < now then None
       else if w.keys[k].scope != CourierPairing then None
       else if a :| a in w.agents && w.agents[a].pairRef == Some(k) then Some(a)
       else None)
    else None
  }

  /** The presented secret authenticates as the agent until its key is revoked, and as nobody from then on. */
  ghost predicate AuthenticatesUntilRevoked(w: World, secret: string, key: Id, agent: Id, now: int) {
    key in w.keys && Authenticate(w, secret, now) == if w.keys[key].revoked then None else Some(agent)
  }

  /** The key handed out authenticates as exactly the agent handed out, at any later time, until it is revoked. */
  lemma KeyAuthenticatesAsAgent(w: World, actions: seq<Action>, n: Nonce, e: nat, now: int)
    requires TablesOk(w.agents, w.keys) && w.exchanges == map[] && NoDeletion(actions) && Won(Run(w, actions), e, n)
    ensures var w' := Run(w, actions);
      var p := w'.exchanges[e].phase;
      AuthenticatesUntilRevoked(w', p.reply.secret, p.key, p.reply.agent, now)
  {
    RunKeepsInv(w, actions);
    var w' := Run(w, actions);
    WinnerAuthenticates(w', n, e, now);
  }

  lemma WinnerAuthenticates(w: World, n: Nonce, e: nat, now: int)
    requires Inv(w) && Won(w, e, n)
    ensures AuthenticatesUntilRevoked(w, w.exchanges[e].phase.reply.secret, w.exchanges[e].phase.key,
      w.exchanges[e].phase.reply.agent, now)
  {
    assert ExchangeOk(w.agents, w.keys, w.nonces, w.exchanges[e]);
    AuthenticateUnique(w, w.exchanges[e].phase.key, w.exchanges[e].phase.agent, w.exchanges[e].phase.reply.secret, now);
  }

  lemma AuthenticateUnique(w: World, k: Id, a: Id, secret: string, now: int)
    requires TablesOk(w.agents, w.keys) && k in w.keys
    requires w.keys[k].(revoked := false) == Key(CourierPairing, secret, None, false)
    requires a in w.agents && w.agents[a].pairRef == Some(k)
    ensures AuthenticatesUntilRevoked(w, secret, k, a, now)
  {
  }

  /** A key of courier scope that the secret opens, neither revoked nor past its expiry, and an agent that refers to
      it. */
  ghost predicate Opens(w: World, secret: string, now: int, key: Id, agent: Id) {
    && key in w.keys && w.keys[key].secret == secret && !w.keys[key].revoked && w.keys[key].scope == CourierPairing
    && (w.keys[key].expiresAt.Some? ==> now <= w.keys[key].expiresAt.value)
    && agent in w.agents && w.agents[agent].pairRef == Some(key)
  }

  /** A secret authenticates as an agent if and only if it opens a key that the agent refers to. */
  lemma AuthenticatesIff(w: World, secret: string, now: int, agent: Id)
    requires TablesOk(w.agents, w.keys)
    ensures Authenticate(w, secret, now) == Some(agent) <==> exists key :: Opens(w, secret, now, key, agent)
  {
    if Authenticate(w, secret, now) == Some(agent) {
      var k :| k in w.keys && !w.keys[k].revoked && w.keys[k].secret == secret;
      assert Opens(w, secret, now, k, agent);
    }
  }

  /** An orphaned key, minted but never linked, authenticates nobody. */
  lemma OrphanKeyAuthenticatesNobody(w: World, k: Id, now: int)
    requires TablesOk(w.agents, w.keys) && k in w.keys && forall a :: a in w.agents ==> w.agents[a].pairRef != Some(k)
    ensures Authenticate(w, w.keys[k].secret, now) == None
  {
  }

  // ---------------------------------------------------------------- deletion in mid-exchange

  /** The last step answers "already used" for a nonce nobody has spent exactly when the exchange's own agent
      was deleted meanwhile: the failed reference is taken for a lost race. */
  lemma AlreadyUsedIsWrongIff(w: World, eid: nat, fault: bool)
    requires At(w, eid) && w.exchanges[eid].phase.IdentityKnown? && w.exchanges[eid].nonce !in w.nonces
    ensures Step(w, ConsumeNonce(eid, fault)).exchanges[eid].phase == Finished(AlreadyUsed, "", "") <==>
      w.exchanges[eid].phase.agent !in w.agents
    ensures w.exchanges[eid].phase.agent !in w.agents ==>
      w.exchanges[eid].nonce !in Step(w, ConsumeNonce(eid, fault)).nonces
  {
    var x := w.exchanges[eid];
    assert PhaseAfter(w, x, ConsumeNonce(eid, fault)) ==
      if x.phase.agent !in w.agents then Finished(AlreadyUsed, "", "")
      else if fault then FAILED else Finished(Paired(x.phase.secret, x.phase.agent), x.phase.agent, x.phase.key);
  }

  /** The token is verified and exchanged up to its last step, then the new agent is deleted. */
  function DeletedMeanwhile(p: Plan): seq<Action> {
    [Begin(p.eid, Some(Token(CourierToken, p.nonce))), CheckNonce(p.eid, false), MakeAgent(p.eid, p.newId, false),
     MintKey(p.eid, p.newKey, p.secret, false), CheckAgent(p.eid, false), LinkKey(p.eid, false),
       KnowIdentity(p.eid, true),
     DeleteAgent(p.newId), ConsumeNonce(p.eid, false)]
  }

  const EMPTY := World(map[], map[], map[], map[])

  lemma RunOne(w: World, actions: seq<Action>, n: nat)
    requires n < |actions|
    ensures Run(w, actions[..n + 1]) == Step(Run(w, actions[..n]), actions[n])
  {
    assert actions[..n + 1][..n] == actions[..n];
  }

  /** One step of such a run, from a world of the exchange into another. */
  lemma RunGoes(p: Plan, k: nat, w: World, x: Phase, w': World, y: Phase)
    requires k < 6 && p.faults == NO_FAULTS && Goes(w, p, k, x, w', y)
    requires Run(EMPTY, DeletedMeanwhile(p)[..k + 1]) == In(w, p, x)
    ensures Run(EMPTY, DeletedMeanwhile(p)[..k + 2]) == In(w', p, y)
  {
    assert DeletedMeanwhile(p)[k + 1] == Schedule(p)[k];
    RunOne(EMPTY, DeletedMeanwhile(p), k + 1);
  }

  // What such a run has made after its third, fourth and sixth step.

  function Made(p: Plan): World {
    World(map[p.newId := Agent(None)], map[], map[], map[])
  }

  function Minted(p: Plan): World {
    Made(p).(keys := map[p.newKey := Key(CourierPairing, p.secret, None, false)])
  }

  function LinkedUp(p: Plan): World {
    Minted(p).(agents := map[p.newId := Agent(Some(p.newKey))])
  }

  lemma UnspentFromEmpty(p: Plan)
    requires p.faults == NO_FAULTS
    ensures Run(EMPTY, DeletedMeanwhile(p)[..2]) == In(EMPTY, p, NonceUnspent)
  {
    var actions := DeletedMeanwhile(p);
    assert actions[..0] == [];
    RunOne(EMPTY, actions, 0);
    assert Run(EMPTY, actions[..1]) == In(EMPTY, p, Verified);
    AfterCheckNonce(EMPTY, p);
    RunGoes(p, 0, EMPTY, Verified, EMPTY, NonceUnspent);
  }

  lemma MadeFromEmpty(p: Plan)
    requires p.faults == NO_FAULTS
    ensures Run(EMPTY, DeletedMeanwhile(p)[..3]) == In(Made(p), p, AgentMade(p.newId))
  {
    UnspentFromEmpty(p);
    AfterMakeAgent(EMPTY, p);
    assert EMPTY.(agents := EMPTY.agents[p.newId := Agent(None)]) == Made(p);
    RunGoes(p, 1, EMPTY, NonceUnspent, Made(p), AgentMade(p.newId));
  }

  lemma MintedFromEmpty(p: Plan)
    requires p.faults == NO_FAULTS
    ensures Run(EMPTY, DeletedMeanwhile(p)[..4]) == In(Minted(p), p, KeyMinted(p.newId, p.newKey, p.secret))
  {
    MadeFromEmpty(p);
    AfterMintKey(Made(p), p);
    RunGoes(p, 2, Made(p), AgentMade(p.newId), Minted(p), KeyMinted(p.newId, p.newKey, p.secret));
  }

  lemma CheckedFromEmpty(p: Plan)
    requires p.faults == NO_FAULTS
    ensures Run(EMPTY, DeletedMeanwhile(p)[..5]) == In(Minted(p), p, LinkChecked(p.newId, p.newKey, p.secret))
  {
    MintedFromEmpty(p);
    AfterCheckAgent(Minted(p), p);
    RunGoes(p, 3, Minted(p), KeyMinted(p.newId, p.newKey, p.secret), Minted(p),
      LinkChecked(p.newId, p.newKey, p.secret));
  }

  lemma LinkedFromEmpty(p: Plan)
    requires p.faults == NO_FAULTS
    ensures Run(EMPTY, DeletedMeanwhile(p)[..6]) == In(LinkedUp(p), p, Linked(p.newId, p.newKey, p.secret))
  {
    CheckedFromEmpty(p);
    AfterLinkKey(Minted(p), p);
    assert Minted(p).(agents := Minted(p).agents[p.newId := Agent(Some(p.newKey))]) == LinkedUp(p);
    RunGoes(p, 4, Minted(p), LinkChecked(p.newId, p.newKey, p.secret), LinkedUp(p),
      Linked(p.newId, p.newKey, p.secret));
  }

  /** From empty tables, the first seven steps alone. */
  lemma KnownFromEmpty(p: Plan)
    requires p.faults == NO_FAULTS
    ensures Run(EMPTY, DeletedMeanwhile(p)[..7]) == In(LinkedUp(p), p, IdentityKnown(p.newId, p.newKey, p.secret))
  {
    LinkedFromEmpty(p);
    AfterKnowIdentity(LinkedUp(p), p);
    RunGoes(p, 5, LinkedUp(p), Linked(p.newId, p.newKey, p.secret), LinkedUp(p),
      IdentityKnown(p.newId, p.newKey, p.secret));
  }

  /** A run that ends in the wrong answer: the token is told to be used, and no nonce is spent. */
  lemma AlreadyUsedWronglyReached(p: Plan)
    requires p.faults == NO_FAULTS
    ensures var w := Run(EMPTY, DeletedMeanwhile(p));
      && w.exchanges == map[p.eid := Exchange(p.nonce, Finished(AlreadyUsed, "", ""))]
      && w.nonces == map[]
  {
    var actions := DeletedMeanwhile(p);
    KnownFromEmpty(p);
    RunOne(EMPTY, actions, 7);
    RunOne(EMPTY, actions, 8);
    var w7 := Run(EMPTY, actions[..7]);
    var w8 := Step(w7, DeleteAgent(p.newId));
    assert actions[..9] == actions;
    assert w8.exchanges == w7.exchanges && w8.agents == map[] && w8.nonces == map[];
    AlreadyUsedIsWrongIff(w8, p.eid, false);
  }

  // ---------------------------------------------------------------- the exchange as a procedure

  /** The exchange run alone from `before` ends in the tables of `after` with this reply. */
  ghost predicate Ends(before: World, p: Plan, after: World, r: Reply) {
    exists agent, key :: Alone(In(before, p, Verified), p, 0) == In(after, p, Finished(r, agent, key))
  }

  /** The nonce is unspent, the new ids are new, no agent refers to the new key yet, and no step meets a fault. */
  ghost predicate NothingHinders(w: World, p: Plan) {
    && p.nonce !in w.nonces && p.newId !in w.agents && p.newKey !in w.keys
    && (forall b :: b in w.agents ==> w.agents[b].pairRef != Some(p.newKey))
    && !p.faults.nonceRead && !p.faults.agentInsert && !p.faults.keyInsert && !p.faults.agentRead
    && !p.faults.linkUpdate && !p.faults.identityMissing && !p.faults.nonceInsert
  }

  /** The tables after a successful exchange. */
  predicate PairedTables(w: World, p: Plan, after: World) {
    && after.agents == w.agents[p.newId := Agent(Some(p.newKey))]
    && after.keys == w.keys[p.newKey := Key(CourierPairing, p.secret, None, false)]
    && after.nonces == w.nonces[p.nonce := p.newId]
  }

  /** What an uninterrupted exchange of a verified token answers and leaves behind: success exactly when nothing hinders
      it, "already used" exactly for a nonce that is seen to be spent, else an internal error. Only success spends. */
  ghost predicate ExchangeTells(w: World, p: Plan, after: World, r: Reply) {
    && (r.Paired? <==> NothingHinders(w, p))
    && (r.Paired? ==> r == Paired(p.secret, p.newId) && PairedTables(w, p, after))
    && (!r.Paired? ==> after.nonces == w.nonces)
    && (r == AlreadyUsed <==> !p.faults.nonceRead && p.nonce in w.nonces)
    && (!r.Paired? && r != AlreadyUsed ==> r == Internal)
  }

  /** The exchange goes on from here to this end. */
  ghost predicate EndsFrom(w: World, p: Plan, k: nat, x: Phase, after: World, r: Reply)
    requires k <= 7
  {
    exists agent, key :: Alone(In(w, p, x), p, k) == In(after, p, Finished(r, agent, key))
  }

  lemma EndIsUnique(w: World, p: Plan, k: nat, x: Phase, after: World, r: Reply, end: World, agent: Id, key: Id,
    answer: Reply)
    requires k <= 7 && EndsFrom(w, p, k, x, after, r)
    requires Alone(In(w, p, x), p, k) == In(end, p, Finished(answer, agent, key))
    ensures after.agents == end.agents && after.keys == end.keys && after.nonces == end.nonces && r == answer
  {
    var a, b :| Alone(In(w, p, x), p, k) == In(after, p, Finished(r, a, b));
    assert In(after, p, Finished(r, a, b)).exchanges[p.eid].phase.reply ==
      In(end, p, Finished(answer, agent, key)).exchanges[p.eid].phase.reply;
  }

  /** The tables after the second half. */
  predicate LinkedTables(w: World, p: Plan, after: World) {
    && after.agents == w.agents[p.newId := Agent(Some(p.newKey))] && after.keys == w.keys
    && after.nonces == w.nonces[p.nonce := p.newId]
  }

  /** From the minted key on. */
  lemma SecondHalfTells(w: World, p: Plan, after: World, r: Reply)
    requires p.newId in w.agents && p.nonce !in w.nonces
    requires EndsFrom(w, p, 3, KeyMinted(p.newId, p.newKey, p.secret), after, r)
    ensures r.Paired? <==>
      (!p.faults.agentRead && !p.faults.linkUpdate && !p.faults.identityMissing && !p.faults.nonceInsert &&
       !KeyTaken(w, p.newId, p.newKey))
    ensures r.Paired? ==> r == Paired(p.secret, p.newId) && LinkedTables(w, p, after)
    ensures !r.Paired? ==> r == Internal && after.nonces == w.nonces
  {
    var x := KeyMinted(p.newId, p.newKey, p.secret);
    var linked := w.(agents := w.agents[p.newId := Agent(Some(p.newKey))]);
    AloneMinted(w, p);
    AloneChecked(w, p);
    AloneLinked(linked, p);
    AloneKnown(linked, p);
    if p.faults.agentRead || p.faults.linkUpdate || KeyTaken(w, p.newId, p.newKey) {
      EndIsUnique(w, p, 3, x, after, r, w, "", "", Internal);
    } else if p.faults.identityMissing || p.faults.nonceInsert {
      EndIsUnique(w, p, 3, x, after, r, linked, "", "", Internal);
    } else {
      EndIsUnique(w, p, 3, x, after, r, linked.(nonces := w.nonces[p.nonce := p.newId]), p.newId, p.newKey,
        Paired(p.secret, p.newId));
    }
  }

  /** The first half meets no obstacle. */
  predicate Mintable(w: World, p: Plan) {
    && !p.faults.nonceRead && !p.faults.agentInsert && !p.faults.keyInsert
    && p.nonce !in w.nonces && p.newId !in w.agents && p.newKey !in w.keys
  }

  function MintedTables(w: World, p: Plan): World {
    w.(agents := w.agents[p.newId := Agent(None)],
       keys := w.keys[p.newKey := Key(CourierPairing, p.secret, None, false)])
  }

  lemma FirstHalfMints(w: World, p: Plan)
    requires !SecretTaken(w, p.secret) && Mintable(w, p)
    ensures Alone(In(w, p, Verified), p, 0) ==
      Alone(In(MintedTables(w, p), p, KeyMinted(p.newId, p.newKey, p.secret)), p, 3)
  {
    var made := w.(agents := w.agents[p.newId := Agent(None)]);
    AloneVerified(w, p);
    AloneUnspent(w, p);
    AloneMade(made, p);
    assert made.(keys := w.keys[p.newKey := Key(CourierPairing, p.secret, None, false)]) == MintedTables(w, p);
  }

  lemma FirstHalfTells(w: World, p: Plan, after: World, r: Reply)
    requires !SecretTaken(w, p.secret) && !Mintable(w, p) && EndsFrom(w, p, 0, Verified, after, r)
    ensures after.nonces == w.nonces
    ensures !p.faults.nonceRead && p.nonce in w.nonces ==> r == AlreadyUsed
    ensures p.faults.nonceRead || p.nonce !in w.nonces ==> r == Internal
  {
    var made := w.(agents := w.agents[p.newId := Agent(None)]);
    AloneVerified(w, p);
    AloneUnspent(w, p);
    AloneMade(made, p);
    if !p.faults.nonceRead && p.nonce in w.nonces {
      EndIsUnique(w, p, 0, Verified, after, r, w, "", "", AlreadyUsed);
    } else if p.faults.nonceRead || p.faults.agentInsert || p.newId in w.agents {
      EndIsUnique(w, p, 0, Verified, after, r, w, "", "", Internal);
    } else {
      EndIsUnique(w, p, 0, Verified, after, r, made, "", "", Internal);
    }
  }

  /** Every end of an uninterrupted exchange is as told. */
  lemma EndTells(w: World, p: Plan, after: World, r: Reply)
    requires !SecretTaken(w, p.secret) && Ends(w, p, after, r)
    ensures ExchangeTells(w, p, after, r)
  {
    assert EndsFrom(w, p, 0, Verified, after, r);
    if Mintable(w, p) {
      var minted := MintedTables(w, p);
      FirstHalfMints(w, p);
      assert EndsFrom(minted, p, 3, KeyMinted(p.newId, p.newKey, p.secret), after, r);
      SecondHalfTells(minted, p, after, r);
      MintedIsTaken(w, p);
    } else {
      FirstHalfTells(w, p, after, r);
    }
  }

  lemma MintedIsTaken(w: World, p: Plan)
    requires Mintable(w, p)
    ensures KeyTaken(MintedTables(w, p), p.newId, p.newKey) <==>
      exists b :: b in w.agents && w.agents[b].pairRef == Some(p.newKey)
  {
    var minted := MintedTables(w, p);
    forall b | b in w.agents ensures b in minted.agents && b != p.newId && minted.agents[b] == w.agents[b] {
    }
  }

  class PairingDb {
    var agents: map<Id, Agent>
    var keys: map<Id, Key>
    var nonces: map<Nonce, Id>

    ghost function Now(): World reads this {
      World(agents, keys, nonces, map[])
    }

    /** One uninterrupted exchange: the same writes and the same answer as its separate steps. */
    method ExchangePairToken(token: Option<Token>, newId: Id, newKey: Id, secret: string, f: Faults) returns (r: Reply)
      requires !SecretTaken(Now(), secret)
      modifies this
      ensures token.None? ==> r == BadToken
      ensures token.Some? && token.value.kind != CourierToken ==> r == WrongKind
      ensures token.None? || token.value.kind != CourierToken ==> Now() == old(Now())
      ensures token.Some? && token.value.kind == CourierToken ==>
        Ends(old(Now()), Plan(0, token.value.nonce, newId, newKey, secret, f), Now(), r)
    {
      if token.None? {
        return BadToken;
      }
      if token.value.kind != CourierToken {
        return WrongKind;
      }
      ghost var p := Plan(0, token.value.nonce, newId, newKey, secret, f);
      var nonce := token.value.nonce;
      AloneVerified(Now(), p);
      if f.nonceRead {
        return Internal;
      }
      if nonce in nonces {
        return AlreadyUsed;
      }
      AloneUnspent(Now(), p);
      if f.agentInsert || newId in agents {
        return Internal;
      }
      agents := agents[newId := Agent(None)];
      AloneMade(Now(), p);
      if f.keyInsert || newKey in keys {
        return Internal;
      }
      keys := keys[newKey := Key(CourierPairing, secret, None, false)];
      AloneMinted(Now(), p);
      if f.agentRead {
        return Internal;
      }
      AloneChecked(Now(), p);
      if f.linkUpdate || exists b :: b in agents && b != newId && agents[b].pairRef == Some(newKey) {
        return Internal;
      }
      agents := agents[newId := Agent(Some(newKey))];
      AloneLinked(Now(), p);
      if f.identityMissing {
        return Internal;
      }
      AloneKnown(Now(), p);
      if f.nonceInsert {
        return Internal;
      }
      nonces := nonces[nonce := newId];
      return Paired(secret, newId);
    }
  }
}
