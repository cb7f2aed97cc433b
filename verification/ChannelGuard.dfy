/** One honest party of the channel (examples/channel_sim.rs) against anybody: the
    messages it receives are arbitrary.  It panics or goes on; wherever it gets to,
    it can publish its newest state, and punish every state the other gave up. */
module ChannelGuard {
  import opened Prelude
  import opened Shachain
  import opened Channel

  /** What the other has said so far: a hash for each state it announced, a secret
      for each it gave up. */
  datatype Told = Told(hashes: seq<Word>, secrets: seq<Word>)

  /** A commitment to state `n` of mine, with the balances of that state, and the
      other's signature on it. */
  ghost predicate Mine(t: Terms, me: Side, n: nat, held: (Tx, Sig))
    requires TermsOk(t)
  {
    && n <= |t.script|
    && Commitment(me, n, After(t, n), HashOf(t, me, n)) == Some(held.0)
    && held.1 == Sig(me.Other(), held.0)
  }

  /** A party through `i` updates, and perhaps in the middle of another. */
  ghost predicate Updating(t: Terms, p: Party, told: Told, i: nat, pending: bool)
    requires TermsOk(t)
  {
    && i <= |t.script| && (pending ==> i < |t.script|)
    && p.bal == After(t, i)
    && |told.hashes| == i + 2 && |told.secrets| == i
    && p.hashes == map[i := told.hashes[i], i + 1 := told.hashes[i + 1]]
    && Holds(t.h, p.store, told.secrets)
    && (forall m | 0 <= m < i :: t.digest(told.secrets[m]) == told.hashes[m])
    && |p.history| == (if pending && t.script[i].payer != p.me then i + 2 else i + 1)
    && (forall n | 0 <= n < |p.history| :: Mine(t, p.me, n, p.history[n]))
  }

  /** What holds of a party whatever it was told. */
  ghost predicate Guarded(t: Terms, p: Party, told: Told)
    requires TermsOk(t)
  {
    if p.steps < 2 then p == Fresh(t, p.me).(steps := p.steps) && told == Told([], [])
    else if p.steps == 2 then
      && |told.hashes| == 2 && told.secrets == []
      && p == Fresh(t, p.me).(steps := 2, hashes := map[0 := told.hashes[0], 1 := told.hashes[1]])
    else Updating(t, p, told, (p.steps - 3) / 2, (p.steps - 3) % 2 == 1)
  }

  /** My signature is on a commitment of the other's that pays it under the hash it
      announced for that state. */
  ghost predicate Backs(t: Terms, me: Side, told: Told, sig: Sig) {
    var n := sig.tx.state;
    && sig.signer == me && n <= |t.script| && n < |told.hashes|
    && Commitment(me.Other(), n, After(t, n), told.hashes[n]) == Some(sig.tx)
  }

  /** A secret of mine is for a state that I hold a newer commitment than. */
  ghost predicate GivenUp(t: Terms, p: Party, m: nat, secret: Word, next: Word) {
    && m + 2 <= |p.history| && m + 2 <= MAX_INDEX
    && secret == SecretOf(t, p.me, m) && next == HashOf(t, p.me, m + 2)
  }

  ghost predicate Replaced(t: Terms, p: Party, secret: Word, next: Word) {
    exists m: nat :: GivenUp(t, p, m, secret, next)
  }

  /** What a party may say at this point. */
  ghost predicate Said(t: Terms, p: Party, told: Told, msg: Msg) {
    match msg
    case Hello(h0, h1) => h0 == HashOf(t, p.me, 0) && h1 == HashOf(t, p.me, 1)
    case Sig0(sig) => Backs(t, p.me, told, sig)
    case Propose(_, sig) => Backs(t, p.me, told, sig)
    case Accept(sig, secret, next) => Backs(t, p.me, told, sig) && Replaced(t, p, secret, next)
    case Revoke(secret, next) => Replaced(t, p, secret, next)
  }

  /** What stands keeps standing as more is said and held. */
  lemma StillSaid(t: Terms, p: Party, told: Told, q: Party, told': Told, msg: Msg)
    requires Said(t, p, told, msg) && q.me == p.me && |p.history| <= |q.history| && told.hashes <= told'.hashes
    ensures Said(t, q, told', msg)
  {
    hide Commitment, After, HashOf, SecretOf;
    match msg
    case Hello(_, _) =>
    case Sig0(_) =>
    case Propose(_, _) =>
    case Accept(_, secret, next) => StillReplaced(t, p, q, secret, next);
    case Revoke(secret, next) => StillReplaced(t, p, q, secret, next);
  }

  lemma StillReplaced(t: Terms, p: Party, q: Party, secret: Word, next: Word)
    requires Replaced(t, p, secret, next) && q.me == p.me && |p.history| <= |q.history|
    ensures Replaced(t, q, secret, next)
  {
    hide HashOf, SecretOf;
    var m: nat :| GivenUp(t, p, m, secret, next);
    assert GivenUp(t, q, m, secret, next);
  }

  // ------------------------------------------------------------------
  // One step
  // ------------------------------------------------------------------

  /** Only a commitment of this state with the other's signature is accepted. */
  lemma AcceptsMine(t: Terms, p: Party, n: nat, theirs: Sig)
    requires TermsOk(t) && n <= |t.script| && AcceptMine(t, p, n, After(t, n), theirs).Some?
    ensures var q := AcceptMine(t, p, n, After(t, n), theirs).value;
            q == p.(history := q.history) && |q.history| == |p.history| + 1 && q.history[..|p.history|] == p.history
            && Mine(t, p.me, n, Last(q.history))
  {
    hide Commitment, After, HashOf;
  }

  lemma Signs(t: Terms, p: Party, told: Told, n: nat)
    requires n <= |t.script| && n < |told.hashes| && n in p.hashes && p.hashes[n] == told.hashes[n]
    requires SignTheirs(p, n, After(t, n)).Some?
    ensures Backs(t, p.me, told, SignTheirs(p, n, After(t, n)).value)
  {
    hide After;
  }

  lemma TopKey(i: nat, x: Word, y: Word)
    ensures NextKey(map[i := x, i + 1 := y]) == i + 2
  {
    assert map[i := x, i + 1 := y].Keys == {i, i + 1};
  }

  /** Only a secret that opens the announced hash and fits the store settles a state. */
  lemma SettlesTold(t: Terms, p: Party, told: Told, i: nat, secret: Word, next: Word) returns (told': Told)
    requires i + 2 <= MAX_INDEX && |told.hashes| == i + 2 && |told.secrets| == i
    requires p.hashes == map[i := told.hashes[i], i + 1 := told.hashes[i + 1]] && Holds(t.h, p.store, told.secrets)
    requires Settle(t, p, i, secret, next).Some?
    ensures told' == Told(told.hashes + [next], told.secrets + [secret]) && t.digest(secret) == told.hashes[i]
    ensures var q := Settle(t, p, i, secret, next).value;
            && q == p.(hashes := q.hashes, store := q.store)
            && q.hashes == map[i + 1 := told'.hashes[i + 1], i + 2 := told'.hashes[i + 2]]
            && Holds(t.h, q.store, told'.secrets)
  {
    hide Holds, NextKey, Inserted;
    told' := Told(told.hashes + [next], told.secrets + [secret]);
    TopKey(i, told.hashes[i], told.hashes[i + 1]);
    SecretsFit(t.h, p.store, told.secrets);
    var noted := p.hashes[i + 2 := next];
    assert noted - {i} == map[i + 1 := told'.hashes[i + 1], i + 2 := told'.hashes[i + 2]];
    InsertHolds(t.h, p.store, told.secrets, secret, MAX_INDEX - i);
  }

  /** What a step makes of a party: still guarded, nothing that was told or held is
      lost, and it says only what it may. */
  ghost predicate StepsTo(t: Terms, p: Party, told: Told, q: Party, told': Told, sent: seq<Msg>)
    requires TermsOk(t)
  {
    && Guarded(t, q, told') && q.me == p.me && q.steps == p.steps + 1 && p.history <= q.history
    && told.hashes <= told'.hashes && told.secrets <= told'.secrets
    && forall k | 0 <= k < |sent| :: Said(t, q, told', sent[k])
  }

  lemma OpeningStep(t: Terms, p: Party, told: Told, inbox: seq<Msg>) returns (told': Told)
    requires TermsOk(t) && Guarded(t, p, told) && p.steps < 3 && Step(t, p, inbox).Go?
    ensures var m := Step(t, p, inbox); StepsTo(t, p, told, m.party, told', m.sent)
  {
    hide Commitment, HashOf, Holds;
    told' := told;
    if p.steps == 1 {
      told' := Told([inbox[0].h0, inbox[0].h1], []);
      Signs(t, Step(t, p, inbox).party, told', 0);
    } else if p.steps == 2 {
      AcceptsMine(t, p, 0, inbox[0].sig);
      StartsEmpty(t.h);
    }
  }

  /** Which update a party is at, and on which side of it. */
  lemma Place(k: nat)
    requires k >= 3
    ensures (k - 3) % 2 == 0 ==> (k + 1 - 3) / 2 == (k - 3) / 2 && (k + 1 - 3) % 2 == 1
    ensures (k - 3) % 2 == 1 ==> (k + 1 - 3) / 2 == (k - 3) / 2 + 1 && (k + 1 - 3) % 2 == 0
  {
  }

  lemma Paid(t: Terms, i: nat, next: Bal)
    requires i < |t.script| && Pay(After(t, i), t.script[i]) == Some(next)
    ensures After(t, i + 1) == next
  {
  }

  lemma ReadyStep(t: Terms, p: Party, told: Told, i: nat, inbox: seq<Msg>)
    requires TermsOk(t) && i < |t.script| && Updating(t, p, told, i, false)
    requires StepReady(t, p, i, After(t, i + 1), inbox).Go?
    ensures var m := StepReady(t, p, i, After(t, i + 1), inbox);
            && Updating(t, m.party, told, i, true) && m.party.me == p.me && m.party.steps == p.steps + 1
            && p.history <= m.party.history && (forall k | 0 <= k < |m.sent| :: Said(t, m.party, told, m.sent[k]))
  {
    hide Commitment, HashOf, SecretOf, Holds, After, AcceptMine, SignTheirs;
    if t.script[i].payer == p.me {
      Signs(t, p, told, i + 1);
    } else {
      var q := AcceptMine(t, p, i + 1, After(t, i + 1), inbox[0].sig).value;
      AcceptsMine(t, p, i + 1, inbox[0].sig);
      Signs(t, q, told, i + 1);
      var m := StepReady(t, p, i, After(t, i + 1), inbox);
      assert GivenUp(t, m.party, i, m.sent[0].secret, m.sent[0].next);
    }
  }

  lemma PendingStep(t: Terms, p: Party, told: Told, i: nat, inbox: seq<Msg>) returns (told': Told)
    requires TermsOk(t) && i < |t.script| && Updating(t, p, told, i, true) && |p.store.known| == MAX_ENTRIES
    requires StepPending(t, p, i, After(t, i + 1), inbox).Go?
    ensures var m := StepPending(t, p, i, After(t, i + 1), inbox);
            && Updating(t, m.party, told', i + 1, false) && m.party.me == p.me && m.party.steps == p.steps + 1
            && p.history <= m.party.history && (forall k | 0 <= k < |m.sent| :: Said(t, m.party, told', m.sent[k]))
            && told.hashes <= told'.hashes && told.secrets <= told'.secrets
  {
    hide Commitment, HashOf, SecretOf, Holds, After, AcceptMine, Settle;
    var m := StepPending(t, p, i, After(t, i + 1), inbox);
    if t.script[i].payer == p.me {
      var q := AcceptMine(t, p, i + 1, After(t, i + 1), inbox[0].sig).value;
      AcceptsMine(t, p, i + 1, inbox[0].sig);
      told' := SettlesTold(t, q, told, i, inbox[0].secret, inbox[0].next);
      assert GivenUp(t, m.party, i, m.sent[0].secret, m.sent[0].next);
    } else {
      told' := SettlesTold(t, p, told, i, inbox[0].secret, inbox[0].next);
    }
  }

  /** A step takes at most one message, and only the kind that is due, a proposal for
      the amount of the script. */
  lemma Heard(t: Terms, p: Party, inbox: seq<Msg>)
    requires TermsOk(t) && Step(t, p, inbox).Go? && Step(t, p, inbox).taken > 0
    ensures Step(t, p, inbox).taken == 1 && inbox != []
    ensures var i := (p.steps - 3) / 2;
            match inbox[0]
            case Hello(_, _) => p.steps == 1
            case Sig0(_) => p.steps == 2
            case Propose(amount, _) =>
              p.steps >= 3 && p.steps % 2 == 1 && i < |t.script| && t.script[i] == Payment(p.me.Other(), amount)
            case Accept(_, _, _) => p.steps >= 4 && p.steps % 2 == 0 && i < |t.script| && t.script[i].payer == p.me
            case Revoke(_, _) => p.steps >= 4 && p.steps % 2 == 0 && i < |t.script| && t.script[i].payer != p.me
  {
    hide AcceptMine, SignTheirs, Settle, HashOf, SecretOf, Pay;
  }

  /** Whatever is in its inbox, a step keeps a party guarded. */
  lemma GuardedStep(t: Terms, p: Party, told: Told, inbox: seq<Msg>) returns (told': Told)
    requires TermsOk(t) && Guarded(t, p, told) && Step(t, p, inbox).Go?
    ensures var m := Step(t, p, inbox); StepsTo(t, p, told, m.party, told', m.sent)
  {
    hide Updating, StepReady, StepPending, StepHello, StepSig0, Said, After, Pay;
    if p.steps < 3 {
      told' := OpeningStep(t, p, told, inbox);
    } else {
      var i := (p.steps - 3) / 2;
      Place(p.steps);
      UpdatingIs(t, p, told, i, (p.steps - 3) % 2 == 1);
      Paid(t, i, Pay(p.bal, t.script[i]).value);
      told' := told;
      if (p.steps - 3) % 2 == 0 {
        ReadyStep(t, p, told, i, inbox);
      } else {
        told' := PendingStep(t, p, told, i, inbox);
      }
    }
  }

  lemma UpdatingIs(t: Terms, p: Party, told: Told, i: nat, pending: bool)
    requires TermsOk(t) && Updating(t, p, told, i, pending)
    ensures i <= |t.script| && p.bal == After(t, i)
  {
    hide After;
  }

  // ------------------------------------------------------------------
  // Every run
  // ------------------------------------------------------------------

  /** A party from the start, step by step, with any inbox at each; and all it said. */
  ghost function Solo(t: Terms, me: Side, inboxes: seq<seq<Msg>>): Option<(Party, seq<Msg>)>
    requires TermsOk(t)
  {
    if inboxes == [] then Some((Fresh(t, me), []))
    else
      match Solo(t, me, Front(inboxes))
      case None => None
      case Some((p, said)) =>
        match Step(t, p, Last(inboxes))
        case Go(q, _, sent) => Some((q, said + sent))
        case _ => None
  }

  /** Against any other party: wherever it gets to, a party is guarded, and stands by
      all it ever said. */
  lemma {:induction false} AnyPeer(t: Terms, me: Side, inboxes: seq<seq<Msg>>) returns (told: Told)
    requires TermsOk(t) && Solo(t, me, inboxes).Some?
    ensures var (p, said) := Solo(t, me, inboxes).value;
            && p.me == me && Guarded(t, p, told) && forall k | 0 <= k < |said| :: Said(t, p, told, said[k])
    decreases |inboxes|
  {
    hide Said, Step, Guarded;
    if inboxes == [] {
      told := Told([], []);
      AtFirst(t, me);
    } else {
      var before := AnyPeer(t, me, Front(inboxes));
      var (p, said) := Solo(t, me, Front(inboxes)).value;
      told := GuardedStep(t, p, before, Last(inboxes));
      var m := Step(t, p, Last(inboxes));
      forall k | 0 <= k < |said|
        ensures Said(t, m.party, told, said[k])
      {
        StillSaid(t, p, before, m.party, told, said[k]);
      }
    }
  }

  lemma AtFirst(t: Terms, me: Side)
    requires TermsOk(t)
    ensures Guarded(t, Fresh(t, me), Told([], []))
  {
  }

  function SigIn(msg: Msg): Option<Sig> {
    match msg
    case Sig0(sig) => Some(sig)
    case Propose(_, sig) => Some(sig)
    case Accept(sig, _, _) => Some(sig)
    case _ => None
  }

  /** The party can rebuild a secret that opens what this commitment pays its holder. */
  ghost predicate Opens(t: Terms, p: Party, tx: Tx) {
    && tx.state <= MAX_INDEX && Got(t.h, p.store.known, MAX_INDEX - tx.state, 0).Some?
    && (tx.toLocal.Some? ==>
          t.digest(Got(t.h, p.store.known, MAX_INDEX - tx.state, 0).value) == tx.toLocal.value.0)
  }

  /** What that is worth.  After `n` updates a party holds a commitment of state `n`,
      signed by the other; and whatever it signed for an earlier state, it can take
      back, should the other publish it. */
  lemma Protected(t: Terms, me: Side, inboxes: seq<seq<Msg>>, n: nat)
    requires TermsOk(t) && Solo(t, me, inboxes).Some?
    requires Solo(t, me, inboxes).value.0.steps >= 3 && n == (Solo(t, me, inboxes).value.0.steps - 3) / 2
    ensures var (p, said) := Solo(t, me, inboxes).value;
            && n < |p.history| && Mine(t, me, n, p.history[n])
            && forall k | 0 <= k < |said| && SigIn(said[k]).Some? && SigIn(said[k]).value.tx.state < n ::
                 Opens(t, p, SigIn(said[k]).value.tx)
  {
    hide Solo, Said, After, HashOf, Mine;
    var told := AnyPeer(t, me, inboxes);
    var (p, said) := Solo(t, me, inboxes).value;
    forall k | 0 <= k < |said| && SigIn(said[k]).Some? && SigIn(said[k]).value.tx.state < n
      ensures Opens(t, p, SigIn(said[k]).value.tx)
    {
      SignedBacks(t, p, told, said[k]);
      OpensTold(t, p, told, SigIn(said[k]).value);
    }
  }

  lemma SignedBacks(t: Terms, p: Party, told: Told, msg: Msg)
    requires Said(t, p, told, msg) && SigIn(msg).Some?
    ensures Backs(t, p.me, told, SigIn(msg).value)
  {
    hide Backs, Replaced, HashOf;
  }

  lemma OpensTold(t: Terms, p: Party, told: Told, sig: Sig)
    requires Backs(t, p.me, told, sig) && Holds(t.h, p.store, told.secrets) && sig.tx.state < |told.secrets|
    requires forall m | 0 <= m < |told.secrets| && m < |told.hashes| :: t.digest(told.secrets[m]) == told.hashes[m]
    ensures Opens(t, p, sig.tx)
  {
    hide Holds, After, Got;
    var m := sig.tx.state;
    SecretsFit(t.h, p.store, told.secrets);
    GetExact(t.h, p.store, told.secrets, MAX_INDEX - m);
    assert Got(t.h, p.store.known, MAX_INDEX - m, 0) == Some(told.secrets[m]);
  }

  lemma SecretsFit(h: Hash, s: Kept, revealed: seq<Word>)
    requires Holds(h, s, revealed)
    ensures |revealed| <= MAX_INDEX + 1 && |s.known| == MAX_ENTRIES
  {
  }

  /** A secret it gave up is for a state it holds a newer commitment than. */
  lemma NeverBare(t: Terms, me: Side, inboxes: seq<seq<Msg>>, k: nat) returns (m: nat)
    requires TermsOk(t) && Solo(t, me, inboxes).Some? && k < |Solo(t, me, inboxes).value.1|
    requires Solo(t, me, inboxes).value.1[k].Accept? || Solo(t, me, inboxes).value.1[k].Revoke?
    ensures var (p, said) := Solo(t, me, inboxes).value;
            && m + 1 < |p.history| && Mine(t, me, m + 1, p.history[m + 1]) && said[k].secret == SecretOf(t, me, m)
  {
    hide Solo, After, HashOf, SecretOf, Backs, Mine, Holds;
    var told := AnyPeer(t, me, inboxes);
    var (p, said) := Solo(t, me, inboxes).value;
    assert Said(t, p, told, said[k]);
    m :| GivenUp(t, p, m, said[k].secret, said[k].next);
  }
}
