/** The two-party payment channel (examples/channel_sim.rs): two parties, two
    first-in-first-out links, any interleaving.  Signatures are tokens that name
    their signer and what they sign; secrets are derived as in `Shachain`. */
module Channel {
  import opened Prelude
  import opened Shachain

  const COMMIT_FEE: nat := 20_000
  const MIN_OUTPUT_VALUE: nat := 10_000

  datatype Side = A | B {
    function Other(): Side { if this == A then B else A }
  }

  datatype Bal = Bal(a: nat, b: nat) {
    function Of(s: Side): nat { if s == A then a else b }
    function Total(): nat { a + b }
  }

  datatype Payment = Payment(payer: Side, amount: nat)

  /** A payment moves an amount across; none when the payer does not have it. */
  function Pay(bal: Bal, p: Payment): Option<Bal> {
    if bal.Of(p.payer) < p.amount then None
    else if p.payer == A then Some(Bal(bal.a - p.amount, bal.b + p.amount))
    else Some(Bal(bal.a + p.amount, bal.b - p.amount))
  }

  /** What both parties agree on before they start, and what each knows alone. */
  datatype Terms = Terms(h: Hash, digest: Word -> Word, seedA: Word, seedB: Word, opening: Bal, script: seq<Payment>) {
    function Seed(s: Side): Word { if s == A then seedA else seedB }
  }

  predicate TermsOk(t: Terms) { |t.script| + 2 <= MAX_INDEX }

  function SecretOf(t: Terms, s: Side, n: nat): Word
    requires n <= MAX_INDEX
  {
    Derive(t.h, t.Seed(s), MAX_INDEX - n)
  }

  function HashOf(t: Terms, s: Side, n: nat): Word
    requires n <= MAX_INDEX
  {
    t.digest(SecretOf(t, s, n))
  }

  // ------------------------------------------------------------------
  // Transactions and messages
  // ------------------------------------------------------------------

  /** A commitment: its holder, its state, what the holder gets back under the
      revocation hash, and what the other gets.  Dust is left out. */
  datatype Tx = Tx(holder: Side, state: nat, toLocal: Option<(Word, nat)>, toOther: Option<nat>)

  /** The funder pays the fee; none when it cannot. */
  function Commitment(holder: Side, n: nat, bal: Bal, rev: Word): Option<Tx> {
    if bal.a < COMMIT_FEE then None
    else
      var side := Bal(bal.a - COMMIT_FEE, bal.b);
      var mine, theirs := side.Of(holder), side.Of(holder.Other());
      Some(Tx(holder, n, if mine >= MIN_OUTPUT_VALUE then Some((rev, mine)) else None,
              if theirs >= MIN_OUTPUT_VALUE then Some(theirs) else None))
  }

  datatype Sig = Sig(signer: Side, tx: Tx)

  datatype Msg =
    | Hello(h0: Word, h1: Word)
    | Sig0(sig: Sig)
    | Propose(amount: nat, sig: Sig)
    | Accept(sig: Sig, secret: Word, next: Word)
    | Revoke(secret: Word, next: Word)

  // ------------------------------------------------------------------
  // A party
  // ------------------------------------------------------------------

  /** `steps` counts what a party has done: it says hello, signs the first
      commitment, accepts its own, then takes two steps for each update. */
  datatype Party = Party(me: Side, steps: nat, bal: Bal, hashes: map<nat, Word>, store: Kept, history: seq<(Tx, Sig)>)

  /** What a party does next: it waits for a message, panics, has finished, or
      goes on, having taken some messages and sent others. */
  datatype Move = Wait | Panic | Finished | Go(party: Party, taken: nat, sent: seq<Msg>)

  /** My signature on what the other may publish of state `n`. */
  function SignTheirs(p: Party, n: nat, bal: Bal): Option<Sig> {
    if n !in p.hashes then None
    else
      match Commitment(p.me.Other(), n, bal, p.hashes[n])
      case None => None
      case Some(tx) => Some(Sig(p.me, tx))
  }

  /** What I may publish of state `n`, if the other's signature is on it. */
  function AcceptMine(t: Terms, p: Party, n: nat, bal: Bal, theirs: Sig): Option<Party>
    requires n <= MAX_INDEX
  {
    match Commitment(p.me, n, bal, HashOf(t, p.me, n))
    case None => None
    case Some(tx) => if theirs != Sig(p.me.Other(), tx) then None else Some(p.(history := p.history + [(tx, theirs)]))
  }

  lemma {:induction false} Highest(keys: set<nat>) returns (top: nat)
    requires keys != {}
    ensures IsTop(keys, top)
  {
    var x :| x in keys;
    var others := keys - {x};
    if others == {} {
      assert keys == {x};
      top := x;
    } else {
      var k := Highest(others);
      top := if x > k then x else k;
      assert keys == others + {x};
    }
  }

  ghost predicate IsTop(keys: set<nat>, top: nat) {
    top in keys && forall j | j in keys :: j <= top
  }

  lemma TopExists(keys: set<nat>)
    requires keys != {}
    ensures exists k: nat :: IsTop(keys, k)
  {
    var top := Highest(keys);
  }

  /** One above the highest announced state. */
  ghost function NextKey(hashes: map<nat, Word>): nat {
    if hashes.Keys == {} then 0
    else
      TopExists(hashes.Keys);
      var k: nat :| IsTop(hashes.Keys, k);
      k + 1
  }

  /** The other gives up state `n`: its secret must open the hash and fit the store. */
  ghost function TakeRevocation(t: Terms, p: Party, n: nat, secret: Word): Option<Party>
    requires n <= MAX_INDEX && |p.store.known| == MAX_ENTRIES
  {
    if n !in p.hashes || t.digest(secret) != p.hashes[n] then None
    else
      match Inserted(t.h, p.store, secret, MAX_INDEX - n)
      case Err(_) => None
      case Ok(kept) => Some(p.(hashes := p.hashes - {n}, store := kept))
  }

  /** The other's next hash, then its revocation of state `n`. */
  ghost function Settle(t: Terms, p: Party, n: nat, secret: Word, next: Word): Option<Party>
    requires n <= MAX_INDEX && |p.store.known| == MAX_ENTRIES
  {
    TakeRevocation(t, p.(hashes := p.hashes[NextKey(p.hashes) := next]), n, secret)
  }

  ghost function Step(t: Terms, p: Party, inbox: seq<Msg>): Move
    requires TermsOk(t)
  {
    if |p.store.known| != MAX_ENTRIES then Panic
    else if p.steps == 0 then Go(p.(steps := 1), 0, [Hello(HashOf(t, p.me, 0), HashOf(t, p.me, 1))])
    else if p.steps == 1 then StepHello(p, inbox)
    else if p.steps == 2 then StepSig0(t, p, inbox)
    else
      var i := (p.steps - 3) / 2;
      if i >= |t.script| then Finished
      else
        match Pay(p.bal, t.script[i])
        case None => Panic
        case Some(next) =>
          if (p.steps - 3) % 2 == 0 then StepReady(t, p, i, next, inbox) else StepPending(t, p, i, next, inbox)
  }

  ghost function StepHello(p: Party, inbox: seq<Msg>): Move {
    if inbox == [] then Wait
    else if !inbox[0].Hello? then Panic
    else
      var q := p.(steps := 2, hashes := map[0 := inbox[0].h0, 1 := inbox[0].h1]);
      match SignTheirs(q, 0, q.bal)
      case None => Panic
      case Some(sig) => Go(q, 1, [Sig0(sig)])
  }

  ghost function StepSig0(t: Terms, p: Party, inbox: seq<Msg>): Move {
    if inbox == [] then Wait
    else if !inbox[0].Sig0? then Panic
    else
      match AcceptMine(t, p, 0, p.bal, inbox[0].sig)
      case None => Panic
      case Some(q) => Go(q.(steps := 3), 1, [])
  }

  /** The start of update `i`: the payer proposes; the other accepts and revokes. */
  ghost function StepReady(t: Terms, p: Party, i: nat, next: Bal, inbox: seq<Msg>): Move
    requires TermsOk(t) && i < |t.script|
  {
    var n := i + 1;
    if t.script[i].payer == p.me then
      match SignTheirs(p, n, next)
      case None => Panic
      case Some(sig) => Go(p.(steps := p.steps + 1), 0, [Propose(t.script[i].amount, sig)])
    else if inbox == [] then Wait
    else if !inbox[0].Propose? || inbox[0].amount != t.script[i].amount then Panic
    else
      match AcceptMine(t, p, n, next, inbox[0].sig)
      case None => Panic
      case Some(q) =>
        match SignTheirs(q, n, next)
        case None => Panic
        case Some(sig) => Go(q.(steps := p.steps + 1), 1,
                             [Accept(sig, SecretOf(t, p.me, n - 1), HashOf(t, p.me, n + 1))])
  }

  /** The end of update `i`: the payer takes the acceptance and revokes; the
      other takes the revocation. */
  ghost function StepPending(t: Terms, p: Party, i: nat, next: Bal, inbox: seq<Msg>): Move
    requires TermsOk(t) && i < |t.script| && |p.store.known| == MAX_ENTRIES
  {
    var n := i + 1;
    if inbox == [] then Wait
    else if t.script[i].payer == p.me then
      if !inbox[0].Accept? then Panic
      else
        match AcceptMine(t, p, n, next, inbox[0].sig)
        case None => Panic
        case Some(q) =>
          match Settle(t, q, n - 1, inbox[0].secret, inbox[0].next)
          case None => Panic
          case Some(q') =>
            Go(q'.(steps := p.steps + 1, bal := next), 1, [Revoke(SecretOf(t, p.me, n - 1), HashOf(t, p.me, n + 1))])
    else if !inbox[0].Revoke? then Panic
    else
      match Settle(t, p, n - 1, inbox[0].secret, inbox[0].next)
      case None => Panic
      case Some(q) => Go(q.(steps := p.steps + 1, bal := next), 1, [])
  }

  // ------------------------------------------------------------------
  // Two parties and two links
  // ------------------------------------------------------------------

  datatype System = System(a: Party, b: Party, toA: seq<Msg>, toB: seq<Msg>) {
    function Of(s: Side): Party { if s == A then a else b }
    function Inbox(s: Side): seq<Msg> { if s == A then toA else toB }
  }

  function Fresh(t: Terms, s: Side): Party { Party(s, 0, t.opening, map[], NothingKept(), []) }

  function Initial(t: Terms): System { System(Fresh(t, A), Fresh(t, B), [], []) }

  /** One party moves; what it sends goes to the end of the other's link. */
  ghost predicate Next(t: Terms, s: System, who: Side, s': System)
    requires TermsOk(t)
  {
    match Step(t, s.Of(who), s.Inbox(who))
    case Go(p, taken, sent) =>
      && taken <= |s.Inbox(who)|
      && s' == (if who == A then System(p, s.b, s.toA[taken..], s.toB + sent)
                else System(s.a, p, s.toA + sent, s.toB[taken..]))
    case _ => false
  }

  // ------------------------------------------------------------------
  // What a party is after so many steps
  // ------------------------------------------------------------------

  /** The first `i` payments can be made, and the fee paid, at every state. */
  ghost predicate Funded(t: Terms, i: nat)
    requires i <= |t.script|
  {
    if i == 0 then t.opening.a >= COMMIT_FEE
    else Funded(t, i - 1) && Pay(After(t, i - 1), t.script[i - 1]).Some? && After(t, i).a >= COMMIT_FEE
  }

  /** Balances after `i` payments. */
  ghost function After(t: Terms, i: nat): Bal
    requires i <= |t.script|
  {
    if i == 0 then t.opening
    else
      match Pay(After(t, i - 1), t.script[i - 1])
      case None => After(t, i - 1)
      case Some(bal) => bal
  }

  /** Money only moves: the total never changes. */
  lemma {:induction false} TotalKept(t: Terms, i: nat)
    requires i <= |t.script|
    ensures After(t, i).Total() == t.opening.Total()
  {
    if i > 0 { TotalKept(t, i - 1); }
  }

  /** What `s` pays in the first `n` payments. */
  ghost function Paid(t: Terms, s: Side, n: nat): nat
    requires n <= |t.script|
  {
    if n == 0 then 0 else Paid(t, s, n - 1) + if t.script[n - 1].payer == s then t.script[n - 1].amount else 0
  }

  /** What `s` opened with, less what it paid, and what it was paid. */
  ghost function Net(t: Terms, s: Side, n: nat): int
    requires n <= |t.script|
  {
    t.opening.Of(s) - Paid(t, s, n) + Paid(t, s.Other(), n)
  }

  /** The payments can be made exactly when nobody ever runs short and the funder
      always has the fee of 20 000; then everybody has what the sums say. */
  lemma {:induction false} FundedIff(t: Terms, n: nat)
    requires n <= |t.script|
    ensures Funded(t, n) <==> forall i | 0 <= i <= n :: Net(t, A, i) >= 20_000 && Net(t, B, i) >= 0
    ensures Funded(t, n) ==> After(t, n).a == Net(t, A, n) && After(t, n).b == Net(t, B, n)
  {
    hide Net;
    NetStep(t, n);
    if n > 0 {
      FundedIff(t, n - 1);
      assert Funded(t, n - 1) ==>
          (Funded(t, n) <==> Net(t, A, n) >= 20_000 && Net(t, B, n) >= 0);
    }
  }

  lemma NetStep(t: Terms, n: nat)
    requires n <= |t.script|
    ensures n == 0 ==> Net(t, A, n) == t.opening.a && Net(t, B, n) == t.opening.b
    ensures n > 0 ==>
              var p := t.script[n - 1];
              && Net(t, p.payer, n) == Net(t, p.payer, n - 1) - p.amount
              && Net(t, p.payer.Other(), n) == Net(t, p.payer.Other(), n - 1) + p.amount
  {
  }

  /** The update a party is at, and payments checked, after `k` steps. */
  function Settled(k: nat): nat { if k < 3 then 0 else (k - 3) / 2 }

  function Checked(k: nat): nat { if k < 4 then 0 else (k - 2) / 2 }

  function LastStep(t: Terms): nat { 3 + 2 * |t.script| }

  /** Own commitments held after `k` steps. */
  function Held(t: Terms, me: Side, k: nat): nat
    requires k <= LastStep(t)
  {
    if k < 3 then 0
    else if (k - 3) % 2 == 1 && t.script[Settled(k)].payer != me then Settled(k) + 2
    else Settled(k) + 1
  }

  /** The commitment `me` holds for state `n`, signed by the other. */
  ghost function Holding(t: Terms, me: Side, n: nat): (Tx, Sig)
    requires TermsOk(t) && n <= |t.script| && Funded(t, n)
  {
    var tx := CommitmentAt(t, me, n);
    (tx, Sig(me.Other(), tx))
  }

  ghost function CommitmentAt(t: Terms, me: Side, n: nat): Tx
    requires TermsOk(t) && n <= |t.script| && Funded(t, n)
  {
    Commitment(me, n, After(t, n), HashOf(t, me, n)).value
  }

  ghost function Holdings(t: Terms, me: Side, n: nat): (hs: seq<(Tx, Sig)>)
    requires TermsOk(t) && n <= |t.script| + 1 && (n > 0 ==> Funded(t, n - 1))
    ensures |hs| == n
  {
    if n == 0 then [] else Holdings(t, me, n - 1) + [Holding(t, me, n - 1)]
  }

  ghost function Revealed(t: Terms, s: Side, n: nat): (r: seq<Word>)
    requires n <= MAX_INDEX + 1
    ensures |r| == n
  {
    if n == 0 then [] else Revealed(t, s, n - 1) + [SecretOf(t, s, n - 1)]
  }

  /** The store after the first `n` secrets of `s`. */
  ghost function StoreOf(t: Terms, s: Side, n: nat): (kept: Kept)
    requires n <= MAX_INDEX + 1
    ensures |kept.known| == MAX_ENTRIES
  {
    if n == 0 then NothingKept()
    else
      match Inserted(t.h, StoreOf(t, s, n - 1), SecretOf(t, s, n - 1), MAX_INDEX - (n - 1))
      case Ok(kept) => kept
      case Err(_) => NothingKept()
  }

  /** The secrets of one seed are all accepted: the store stands for them. */
  lemma {:induction false} StoreHolds(t: Terms, s: Side, n: nat)
    requires n <= MAX_INDEX + 1
    ensures Holds(t.h, StoreOf(t, s, n), Revealed(t, s, n))
    ensures Honest(t.h, t.Seed(s), Revealed(t, s, n))
    ensures n <= MAX_INDEX ==> Inserted(t.h, StoreOf(t, s, n), SecretOf(t, s, n), MAX_INDEX - n).Ok?
  {
    hide Holds, DeriveFrom, Bucket, Inserted;
    if n == 0 {
      StartsEmpty(t.h);
    } else {
      StoreHolds(t, s, n - 1);
      InsertHolds(t.h, StoreOf(t, s, n - 1), Revealed(t, s, n - 1), SecretOf(t, s, n - 1), MAX_INDEX - (n - 1));
      HonestAccepted(t.h, t.Seed(s), StoreOf(t, s, n - 1), Revealed(t, s, n - 1));
    }
    if n <= MAX_INDEX { HonestAccepted(t.h, t.Seed(s), StoreOf(t, s, n), Revealed(t, s, n)); }
  }

  lemma {:induction false} FundedDown(t: Terms, i: nat, j: nat)
    requires j <= i <= |t.script| && Funded(t, i)
    ensures Funded(t, j) && After(t, j).a >= COMMIT_FEE
    decreases i
  {
    if j < i { FundedDown(t, i - 1, j); }
  }

  /** A party gets as far as `k` steps only over payments that can be made. */
  ghost predicate Able(t: Terms, k: nat)
    requires k <= LastStep(t)
  {
    k >= 2 ==> Funded(t, Checked(k))
  }

  lemma AbleDown(t: Terms, k: nat, j: nat)
    requires j <= k <= LastStep(t) && Able(t, k)
    ensures Able(t, j)
  {
    if j >= 2 { FundedDown(t, Checked(k), Checked(j)); }
  }

  /** The two states of `s` announced and not revoked. */
  ghost function Announced(t: Terms, s: Side, m: nat): map<nat, Word>
    requires m < MAX_INDEX
  {
    map[m := HashOf(t, s, m), m + 1 := HashOf(t, s, m + 1)]
  }

  /** A party after `k` steps, whatever happened elsewhere. */
  ghost function At(t: Terms, me: Side, k: nat): Party
    requires TermsOk(t) && k <= LastStep(t) && Able(t, k)
  {
    var m := Settled(k);
    if k >= 3 then FundedDown(t, Checked(k), Held(t, me, k) - 1); Party(me, k, After(t, m), Announced(t, me.Other(), m),
      StoreOf(t, me.Other(), m), Holdings(t, me, Held(t, me, k)))
    else Party(me, k, t.opening, if k < 2 then map[] else Announced(t, me.Other(), 0), NothingKept(), [])
  }

  /** What a party sends at its step `k`. */
  ghost function Out(t: Terms, me: Side, k: nat): seq<Msg>
    requires TermsOk(t) && k < LastStep(t) && Able(t, k + 1)
  {
    var other, i := me.Other(), Settled(k);
    if k == 0 then [Hello(HashOf(t, me, 0), HashOf(t, me, 1))]
    else if k == 1 then [Sig0(Sig(me, CommitmentAt(t, other, 0)))]
    else if k == 2 then []
    else if (k - 3) % 2 == 0 then
      var sig := Sig(me, CommitmentAt(t, other, i + 1));
      if t.script[i].payer == me then [Propose(t.script[i].amount, sig)]
      else [Accept(sig, SecretOf(t, me, i), HashOf(t, me, i + 2))]
    else if t.script[i].payer == me then [Revoke(SecretOf(t, me, i), HashOf(t, me, i + 2))]
    else []
  }

  /** What a party takes at its step `k`. */
  ghost function In(t: Terms, me: Side, k: nat): seq<Msg>
    requires TermsOk(t) && k < LastStep(t) && Able(t, k + 1)
  {
    var other, i := me.Other(), Settled(k);
    if k == 0 then []
    else if k == 1 then [Hello(HashOf(t, other, 0), HashOf(t, other, 1))]
    else if k == 2 then [Sig0(Sig(other, CommitmentAt(t, me, 0)))]
    else if (k - 3) % 2 == 0 then
      if t.script[i].payer == me then [] else [Propose(t.script[i].amount, Sig(other, CommitmentAt(t, me, i + 1)))]
    else if t.script[i].payer == me then
      [Accept(Sig(other, CommitmentAt(t, me, i + 1)), SecretOf(t, other, i), HashOf(t, other, i + 2))]
    else [Revoke(SecretOf(t, other, i), HashOf(t, other, i + 2))]
  }

  // ------------------------------------------------------------------
  // One step
  // ------------------------------------------------------------------

  lemma SignsTheirs(t: Terms, p: Party, n: nat, m: nat)
    requires TermsOk(t) && n <= |t.script| && Funded(t, n) && m <= n <= m + 1
    requires p.hashes == Announced(t, p.me.Other(), m)
    ensures SignTheirs(p, n, After(t, n)) == Some(Sig(p.me, CommitmentAt(t, p.me.Other(), n)))
  {
    hide HashOf, Funded, After;
    FundedDown(t, n, n);
  }

  lemma AcceptsMine(t: Terms, p: Party, n: nat)
    requires TermsOk(t) && n <= |t.script| && Funded(t, n)
    ensures AcceptMine(t, p, n, After(t, n), Sig(p.me.Other(), CommitmentAt(t, p.me, n)))
         == Some(p.(history := p.history + [Holding(t, p.me, n)]))
  {
    hide HashOf, Funded, After;
    FundedDown(t, n, n);
  }

  lemma NextKeyIs(t: Terms, s: Side, m: nat)
    requires m < MAX_INDEX
    ensures NextKey(Announced(t, s, m)) == m + 2
  {
    hide HashOf;
    assert Announced(t, s, m).Keys == {m, m + 1};
  }

  lemma Settles(t: Terms, p: Party, m: nat)
    requires m + 2 <= MAX_INDEX && p.hashes == Announced(t, p.me.Other(), m) && p.store == StoreOf(t, p.me.Other(), m)
    ensures |p.store.known| == MAX_ENTRIES
    ensures Settle(t, p, m, SecretOf(t, p.me.Other(), m), HashOf(t, p.me.Other(), m + 2))
         == Some(p.(hashes := Announced(t, p.me.Other(), m + 1), store := StoreOf(t, p.me.Other(), m + 1)))
  {
    hide NextKey, SecretOf, Inserted, Derive;
    var s := p.me.Other();
    NextKeyIs(t, s, m);
    StoreHolds(t, s, m);
    assert Announced(t, s, m)[m + 2 := HashOf(t, s, m + 2)] - {m} == Announced(t, s, m + 1);
  }

  lemma PaysOn(t: Terms, i: nat)
    requires i < |t.script| && Funded(t, i + 1)
    ensures Pay(After(t, i), t.script[i]) == Some(After(t, i + 1))
  {
  }

  lemma AtStart(t: Terms, s: Side)
    requires TermsOk(t)
    ensures After(t, 0) == t.opening && StoreOf(t, s, 0) == NothingKept() && Holdings(t, s, 0) == []
  {
  }

  lemma OneMore(t: Terms, me: Side, n: nat)
    requires TermsOk(t) && n <= |t.script| && Funded(t, n)
    ensures n > 0 ==> Funded(t, n - 1)
    ensures Holdings(t, me, n + 1) == Holdings(t, me, n) + [Holding(t, me, n)]
  {
    hide Holding;
  }

  /** Step `k` of a party: what it becomes and sends. */
  ghost function Onward(t: Terms, me: Side, k: nat): Move
    requires TermsOk(t) && k < LastStep(t) && Able(t, k + 1)
  {
    Go(At(t, me, k + 1), |In(t, me, k)|, Out(t, me, k))
  }

  ghost function Doing(t: Terms, me: Side, k: nat, inbox: seq<Msg>): Move
    requires TermsOk(t) && k <= LastStep(t) && Able(t, k)
  {
    Step(t, At(t, me, k), inbox)
  }

  /** On the right message a party goes on as it should. */
  ghost predicate StepsOn(t: Terms, me: Side, k: nat, rest: seq<Msg>)
    requires TermsOk(t) && k < LastStep(t) && Able(t, k + 1)
  {
    Able(t, k) && Doing(t, me, k, In(t, me, k) + rest) == Onward(t, me, k)
  }

  lemma HelloStep(t: Terms, me: Side, k: nat, rest: seq<Msg>)
    requires TermsOk(t) && k < 3 && Able(t, k + 1)
    ensures StepsOn(t, me, k, rest)
  {
    hide HashOf, After, CommitmentAt, SignTheirs, AcceptMine, StoreOf, Holdings, Holding, NoEntries;
    AtStart(t, me);
    AtStart(t, me.Other());
    AbleDown(t, k + 1, k);
    if k == 1 {
      SignsTheirs(t, At(t, me, 2), 0, 0);
    } else if k == 2 {
      AcceptsMine(t, At(t, me, 2), 0);
      OneMore(t, me, 0);
    }
  }

  lemma ReadyPayer(t: Terms, me: Side, i: nat, rest: seq<Msg>)
    requires TermsOk(t) && i < |t.script| && Able(t, 4 + 2 * i) && t.script[i].payer == me
    ensures StepsOn(t, me, 3 + 2 * i, rest)
  {
    hide HashOf, SecretOf, After, Funded, CommitmentAt, SignTheirs, AcceptMine, StoreOf, Holdings, Holding, NoEntries,
         Announced;
    AbleDown(t, 4 + 2 * i, 3 + 2 * i);
    PaysOn(t, i);
    SignsTheirs(t, At(t, me, 3 + 2 * i), i + 1, i);
  }

  lemma ReadyPayee(t: Terms, me: Side, i: nat, rest: seq<Msg>)
    requires TermsOk(t) && i < |t.script| && Able(t, 4 + 2 * i) && t.script[i].payer != me
    ensures StepsOn(t, me, 3 + 2 * i, rest)
  {
    hide HashOf, SecretOf, After, Funded, CommitmentAt, SignTheirs, AcceptMine, StoreOf, Holdings, Holding, NoEntries,
         Announced, StepHello, StepSig0, StepReady, StepPending;
    AbleDown(t, 4 + 2 * i, 3 + 2 * i);
    var p := At(t, me, 3 + 2 * i);
    PaysOn(t, i);
    OneMore(t, me, i + 1);
    PayeeAccepts(t, p, i, In(t, me, 3 + 2 * i) + rest);
  }

  /** The payee of update `i` accepts what the payer proposes, and revokes. */
  lemma PayeeAccepts(t: Terms, p: Party, i: nat, inbox: seq<Msg>)
    requires TermsOk(t) && i < |t.script| && Funded(t, i + 1) && t.script[i].payer != p.me && inbox != []
    requires p.hashes == Announced(t, p.me.Other(), i)
    requires inbox[0] == Propose(t.script[i].amount, Sig(p.me.Other(), CommitmentAt(t, p.me, i + 1)))
    ensures StepReady(t, p, i, After(t, i + 1), inbox)
            == Go(p.(steps := p.steps + 1, history := p.history + [Holding(t, p.me, i + 1)]), 1,
                  [Accept(Sig(p.me, CommitmentAt(t, p.me.Other(), i + 1)),
                          SecretOf(t, p.me, i), HashOf(t, p.me, i + 2))])
  {
    hide HashOf, SecretOf, After, Funded, CommitmentAt, SignTheirs, AcceptMine, Holding, Announced;
    AcceptsMine(t, p, i + 1);
    SignsTheirs(t, p.(history := p.history + [Holding(t, p.me, i + 1)]), i + 1, i);
  }

  lemma PendingStep(t: Terms, me: Side, i: nat, rest: seq<Msg>)
    requires TermsOk(t) && i < |t.script| && Able(t, 5 + 2 * i)
    ensures StepsOn(t, me, 4 + 2 * i, rest)
  {
    hide HashOf, SecretOf, After, Funded, CommitmentAt, SignTheirs, AcceptMine, StoreOf, Holdings, Holding, NoEntries,
         Announced, Settle, StepHello, Pay;
    var k := 4 + 2 * i;
    AbleDown(t, k + 1, k);
    var p := At(t, me, k);
    PaysOn(t, i);
    if t.script[i].payer == me {
      AcceptsMine(t, p, i + 1);
      OneMore(t, me, i + 1);
      Settles(t, p.(history := p.history + [Holding(t, me, i + 1)]), i);
    } else {
      Settles(t, p, i);
    }
  }

  lemma StepIs(t: Terms, me: Side, k: nat, rest: seq<Msg>)
    requires TermsOk(t) && k < LastStep(t) && Able(t, k + 1)
    ensures StepsOn(t, me, k, rest)
  {
    hide StepsOn, Able;
    if k < 3 {
      HelloStep(t, me, k, rest);
    } else if (k - 3) % 2 == 0 {
      var i := (k - 3) / 2;
      if t.script[i].payer == me { ReadyPayer(t, me, i, rest); } else { ReadyPayee(t, me, i, rest); }
    } else {
      PendingStep(t, me, (k - 3) / 2, rest);
    }
  }

  lemma PendingFunds(t: Terms, i: nat)
    requires i < |t.script|
    ensures Able(t, 4 + 2 * i) <==> Funded(t, i + 1)
    ensures Able(t, 5 + 2 * i) <==> Funded(t, i + 1)
    ensures Able(t, 3 + 2 * i) <==> Funded(t, i)
  {
    hide Funded;
  }

  /** A party that goes on was able to. */
  lemma StepNeeds(t: Terms, me: Side, k: nat, inbox: seq<Msg>)
    requires TermsOk(t) && k <= LastStep(t) && Able(t, k) && Doing(t, me, k, inbox).Go?
    ensures k < LastStep(t) && Able(t, k + 1)
  {
    hide Doing, Able, At;
    if k < 3 {
      StartNeeds(t, me, k, inbox);
    } else {
      var i := (k - 3) / 2;
      NotFinished(t, me, k, inbox);
      PendingFunds(t, i);
      if (k - 3) % 2 == 0 { ReadyNeeds(t, me, i, inbox); }
    }
  }

  lemma StartNeeds(t: Terms, me: Side, k: nat, inbox: seq<Msg>)
    requires TermsOk(t) && k < 3 && Able(t, k) && Doing(t, me, k, inbox).Go?
    ensures Able(t, k + 1)
  {
    hide HashOf, SecretOf, StoreOf, Holdings, NoEntries, Announced, Settle;
  }

  lemma NotFinished(t: Terms, me: Side, k: nat, inbox: seq<Msg>)
    requires TermsOk(t) && 3 <= k <= LastStep(t) && Able(t, k) && Doing(t, me, k, inbox).Go?
    ensures (k - 3) / 2 < |t.script|
  {
    hide HashOf, SecretOf, StoreOf, Holdings, NoEntries, Announced, StepReady, StepPending, Able, After, Funded;
  }

  lemma ReadyNeeds(t: Terms, me: Side, i: nat, inbox: seq<Msg>)
    requires TermsOk(t) && i < |t.script| && Able(t, 3 + 2 * i) && Doing(t, me, 3 + 2 * i, inbox).Go?
    ensures Funded(t, i + 1)
  {
    hide HashOf, SecretOf, StoreOf, Holdings, NoEntries, Announced, StepReady, StepPending;
    var p := At(t, me, 3 + 2 * i);
    assert p.bal == After(t, i) && p.steps == 3 + 2 * i && (p.steps - 3) / 2 == i;
    match Pay(p.bal, t.script[i])
    case None =>
    case Some(next) => ProposalFunds(t, p, i, next, inbox);
  }

  /** Nobody signs what cannot pay the fee. */
  lemma ProposalFunds(t: Terms, p: Party, i: nat, next: Bal, inbox: seq<Msg>)
    requires TermsOk(t) && i < |t.script| && StepReady(t, p, i, next, inbox).Go?
    ensures next.a >= COMMIT_FEE
  {
    hide HashOf, SecretOf;
  }

  /** A party that must take a message waits for it. */
  lemma StepWaits(t: Terms, me: Side, k: nat)
    requires TermsOk(t) && k < LastStep(t) && Able(t, k + 1) && Able(t, k) && In(t, me, k) != []
    ensures Doing(t, me, k, []) == Wait
  {
    hide HashOf, SecretOf, StoreOf, Holdings, NoEntries, Announced, Settle, SignTheirs, AcceptMine, CommitmentAt,
         Funded, After;
    if k >= 3 {
      var i := (k - 3) / 2;
      PendingFunds(t, i);
      PaysOn(t, i);
    }
  }

  // ------------------------------------------------------------------
  // What has been sent and taken
  // ------------------------------------------------------------------

  /** Everything a party has sent in `k` steps. */
  ghost function Stream(t: Terms, me: Side, k: nat): seq<Msg>
    requires TermsOk(t) && k <= LastStep(t) && Able(t, k)
  {
    if k == 0 then [] else AbleDown(t, k, k - 1); Stream(t, me, k - 1) + Out(t, me, k - 1)
  }

  /** Everything a party has taken in `k` steps. */
  ghost function Taken(t: Terms, me: Side, k: nat): seq<Msg>
    requires TermsOk(t) && k <= LastStep(t) && Able(t, k)
  {
    if k == 0 then [] else AbleDown(t, k, k - 1); Taken(t, me, k - 1) + In(t, me, k - 1)
  }

  lemma {:induction false} StreamGrows(t: Terms, me: Side, k: nat, k': nat)
    requires TermsOk(t) && k <= k' <= LastStep(t) && Able(t, k') && Able(t, k)
    ensures Stream(t, me, k) <= Stream(t, me, k') && Taken(t, me, k) <= Taken(t, me, k')
    decreases k'
  {
    hide In, Out, Able;
    if k < k' {
      AbleDown(t, k', k' - 1);
      StreamGrows(t, me, k, k' - 1);
    }
  }

  /** The next moment both parties have done the same steps. */
  function Round(k: nat): nat { if k < 3 then 3 else if (k - 3) % 2 == 1 then k + 1 else k }

  /** After the same steps, each has taken exactly what the other has sent. */
  lemma {:induction false} Aligned(t: Terms, me: Side, i: nat)
    requires TermsOk(t) && i <= |t.script| && Able(t, 3 + 2 * i)
    ensures Taken(t, me, 3 + 2 * i) == Stream(t, me.Other(), 3 + 2 * i)
  {
    hide HashOf, SecretOf, CommitmentAt, Able, Stream, Taken;
    if i == 0 {
      AlignedStart(t, me);
    } else {
      AbleDown(t, 3 + 2 * i, 1 + 2 * i);
      Aligned(t, me, i - 1);
      AlignedUpdate(t, me, i - 1);
    }
  }

  lemma AlignedStart(t: Terms, me: Side)
    requires TermsOk(t) && Able(t, 3)
    ensures Taken(t, me, 3) == Stream(t, me.Other(), 3)
  {
    hide HashOf, SecretOf, CommitmentAt;
    var o := me.Other();
    assert Taken(t, me, 0) == [] == Stream(t, o, 0);
    assert Taken(t, me, 1) == Taken(t, me, 0) + In(t, me, 0);
    assert Stream(t, o, 1) == Stream(t, o, 0) + Out(t, o, 0);
    assert Taken(t, me, 2) == Taken(t, me, 1) + In(t, me, 1);
    assert Stream(t, o, 2) == Stream(t, o, 1) + Out(t, o, 1);
  }

  /** What one update makes a party take is what it makes the other send. */
  lemma Exchanged(t: Terms, me: Side, i: nat)
    requires TermsOk(t) && i < |t.script| && Able(t, 5 + 2 * i) && Able(t, 4 + 2 * i)
    ensures In(t, me, 3 + 2 * i) + In(t, me, 4 + 2 * i)
         == Out(t, me.Other(), 3 + 2 * i) + Out(t, me.Other(), 4 + 2 * i)
  {
    hide HashOf, SecretOf, CommitmentAt, Able;
  }

  lemma StreamStep(t: Terms, me: Side, k: nat)
    requires TermsOk(t) && k < LastStep(t) && Able(t, k + 1)
    ensures Able(t, k)
    ensures Stream(t, me, k + 1) == Stream(t, me, k) + Out(t, me, k)
    ensures Taken(t, me, k + 1) == Taken(t, me, k) + In(t, me, k)
  {
    hide In, Out, Able;
    AbleDown(t, k + 1, k);
  }

  lemma AlignedUpdate(t: Terms, me: Side, i: nat)
    requires TermsOk(t) && i < |t.script| && Able(t, 5 + 2 * i) && Able(t, 3 + 2 * i)
    requires Taken(t, me, 3 + 2 * i) == Stream(t, me.Other(), 3 + 2 * i)
    ensures Taken(t, me, 5 + 2 * i) == Stream(t, me.Other(), 5 + 2 * i)
  {
    hide In, Out, Able, Stream, Taken;
    var o, k := me.Other(), 3 + 2 * i;
    AbleDown(t, k + 2, k + 1);
    StreamStep(t, me, k);
    StreamStep(t, me, k + 1);
    StreamStep(t, o, k);
    StreamStep(t, o, k + 1);
    Exchanged(t, me, i);
    Regroup(Taken(t, me, k), In(t, me, k), In(t, me, k + 1));
    Regroup(Stream(t, o, k), Out(t, o, k), Out(t, o, k + 1));
  }

  // ------------------------------------------------------------------
  // Every interleaving
  // ------------------------------------------------------------------

  /** A party has taken the beginning of what the other has sent; the rest is
      on the link, in order. */
  ghost predicate Linked(t: Terms, me: Side, k: nat, k': nat, inbox: seq<Msg>)
    requires TermsOk(t) && k <= LastStep(t) && Able(t, k) && k' <= LastStep(t) && Able(t, k')
  {
    && Taken(t, me, k) <= Stream(t, me.Other(), k')
    && inbox == Stream(t, me.Other(), k')[|Taken(t, me, k)|..]
  }

  ghost predicate Inv(t: Terms, s: System)
    requires TermsOk(t)
  {
    var ka, kb := s.a.steps, s.b.steps;
    && ka <= LastStep(t) && kb <= LastStep(t) && Able(t, ka) && Able(t, kb)
    && s.a == At(t, A, ka) && s.b == At(t, B, kb)
    && Linked(t, A, ka, kb, s.toA) && Linked(t, B, kb, ka, s.toB)
  }

  lemma InitialInv(t: Terms)
    requires TermsOk(t)
    ensures Inv(t, Initial(t))
  {
  }

  /** Two beginnings of one sequence: the shorter begins the longer. */
  lemma CommonPrefix<T>(a: seq<T>, b: seq<T>, c: seq<T>)
    requires a <= c && b <= c && |a| <= |b|
    ensures a <= b
  {
  }

  /** The message at the head of a link is the one its reader expects. */
  lemma HeadIs(t: Terms, me: Side, k: nat, k': nat, inbox: seq<Msg>)
    requires TermsOk(t) && k < LastStep(t) && Able(t, k) && Able(t, k + 1) && k' <= LastStep(t) && Able(t, k')
    requires Linked(t, me, k, k', inbox) && (In(t, me, k) == [] || inbox != [])
    ensures In(t, me, k) <= inbox && Linked(t, me, k + 1, k', inbox[|In(t, me, k)|..])
  {
    hide In, Out, Able, Stream, Taken;
    var o := me.Other();
    var sent, taken := Stream(t, o, k'), Taken(t, me, k);
    StreamStep(t, me, k);
    AtMostOne(t, me, k);
    if In(t, me, k) == [] {
      assert Taken(t, me, k + 1) == taken;
    } else {
      var top := RoundUp(t, me, k, k');
      StreamGrows(t, me, k + 1, top);
      StreamGrows(t, o, k', top);
      Aligned(t, me, (top - 3) / 2);
      CommonPrefix(Taken(t, me, k + 1), sent, Stream(t, o, top));
    }
    assert sent == Taken(t, me, k + 1) + sent[|Taken(t, me, k + 1)|..];
    assert inbox == In(t, me, k) + sent[|Taken(t, me, k + 1)|..];
  }

  lemma AtMostOne(t: Terms, me: Side, k: nat)
    requires TermsOk(t) && k < LastStep(t) && Able(t, k + 1)
    ensures |In(t, me, k)| <= 1 && |Out(t, me, k)| <= 1 && (k == 0 ==> In(t, me, k) == [])
  {
  }

  lemma RoundAble(t: Terms, k: nat)
    requires 2 <= k <= LastStep(t) && Able(t, k)
    ensures k <= Round(k) <= LastStep(t) && Round(k) >= 3 && (Round(k) - 3) % 2 == 0 && Able(t, Round(k))
  {
    hide Funded;
    if k >= 3 && (k - 3) % 2 == 1 { PendingFunds(t, (k - 3) / 2); }
  }

  lemma RoundUp(t: Terms, me: Side, k: nat, k': nat) returns (top: nat)
    requires TermsOk(t) && k < LastStep(t) && Able(t, k + 1) && k' <= LastStep(t) && Able(t, k') && In(t, me, k) != []
    ensures k + 1 <= top <= LastStep(t) && k' <= top && top >= 3 && (top - 3) % 2 == 0 && Able(t, top)
  {
    hide Able, In, Out, Round;
    AtMostOne(t, me, k);
    var most := Max(k + 1, k');
    RoundAble(t, most);
    top := Round(most);
  }

  /** Whoever moves, whenever: the invariant holds after every move. */
  lemma NextInv(t: Terms, s: System, who: Side, s': System)
    requires TermsOk(t) && Inv(t, s) && Next(t, s, who, s')
    ensures Inv(t, s') && s'.Of(who).steps == s.Of(who).steps + 1
  {
    hide In, Out, Able, Stream, Taken, At, Step, Linked;
    var k, k', inbox := s.Of(who).steps, s.Of(who.Other()).steps, s.Inbox(who);
    MoveIs(t, who, k, k', inbox);
    SentOn(t, who.Other(), k', k, s.Inbox(who.Other()));
    HeadIs(t, who, k, k', inbox);
    AtSteps(t, who, k + 1);
  }

  lemma AtSteps(t: Terms, me: Side, k: nat)
    requires TermsOk(t) && k <= LastStep(t) && Able(t, k)
    ensures At(t, me, k).steps == k
  {
    hide Able, Announced, StoreOf, Holdings;
  }

  lemma MoveIs(t: Terms, me: Side, k: nat, k': nat, inbox: seq<Msg>)
    requires TermsOk(t) && k <= LastStep(t) && Able(t, k) && k' <= LastStep(t) && Able(t, k')
    requires Linked(t, me, k, k', inbox) && Doing(t, me, k, inbox).Go?
    ensures k < LastStep(t) && Able(t, k + 1) && (In(t, me, k) == [] || inbox != [])
    ensures Doing(t, me, k, inbox) == Onward(t, me, k)
  {
    hide In, Out, Able, Stream, Taken, At, Step, Linked, Onward, Doing;
    StepNeeds(t, me, k, inbox);
    if In(t, me, k) != [] { StepWaits(t, me, k); }
    HeadIs(t, me, k, k', inbox);
    var rest := inbox[|In(t, me, k)|..];
    assert inbox == In(t, me, k) + rest;
    StepIs(t, me, k, rest);
  }

  /** What one sends goes to the end of the other's link. */
  lemma SentOn(t: Terms, me: Side, k: nat, k': nat, inbox: seq<Msg>)
    requires TermsOk(t) && k <= LastStep(t) && Able(t, k) && k' < LastStep(t) && Able(t, k') && Able(t, k' + 1)
    requires Linked(t, me, k, k', inbox)
    ensures Linked(t, me, k, k' + 1, inbox + Out(t, me.Other(), k'))
  {
    hide In, Out, Able, Stream, Taken;
    StreamStep(t, me.Other(), k');
  }

  /** Any interleaving from the start, as far as it goes. */
  ghost predicate IsRun(t: Terms, run: seq<System>)
    requires TermsOk(t)
  {
    && |run| > 0 && run[0] == Initial(t)
    && (forall i | 0 < i < |run| :: Next(t, run[i - 1], A, run[i]) || Next(t, run[i - 1], B, run[i]))
  }

  /** Every state of every run satisfies the invariant, and no run goes on for ever. */
  lemma {:induction false} RunInv(t: Terms, run: seq<System>, i: nat)
    requires TermsOk(t) && IsRun(t, run) && i < |run|
    ensures Inv(t, run[i]) && run[i].a.steps + run[i].b.steps == i <= 2 * LastStep(t)
  {
    hide Inv, Next, Initial;
    if i == 0 {
      InitialInv(t);
      StartSteps(t);
    } else {
      RunInv(t, run, i - 1);
      var who := if Next(t, run[i - 1], A, run[i]) then A else B;
      NextInv(t, run[i - 1], who, run[i]);
      OtherStays(t, run[i - 1], who, run[i]);
    }
    StepsBound(t, run[i]);
  }

  lemma StartSteps(t: Terms)
    ensures Initial(t).a.steps == 0 && Initial(t).b.steps == 0
  {
  }

  lemma OtherStays(t: Terms, s: System, who: Side, s': System)
    requires TermsOk(t) && Next(t, s, who, s')
    ensures s'.Of(who.Other()) == s.Of(who.Other())
  {
    hide Step;
  }

  lemma StepsBound(t: Terms, s: System)
    requires TermsOk(t) && Inv(t, s)
    ensures s.a.steps <= LastStep(t) && s.b.steps <= LastStep(t)
  {
    hide Able, At, Linked;
  }

  /** What the invariant says of one side. */
  lemma SideInv(t: Terms, s: System, me: Side)
    requires TermsOk(t) && Inv(t, s)
    ensures var k, k' := s.Of(me).steps, s.Of(me.Other()).steps;
            && k <= LastStep(t) && k' <= LastStep(t) && Able(t, k) && Able(t, k')
            && s.Of(me) == At(t, me, k) && Linked(t, me, k, k', s.Inbox(me))
  {
    hide Able, At, Linked;
  }

  lemma AllAble(t: Terms, k: nat)
    requires k <= LastStep(t) && Funded(t, |t.script|)
    ensures Able(t, k)
  {
    hide Funded;
    AbleDown(t, LastStep(t), k);
  }

  /** With a script that can be paid, no receive ever meets a message of the
      wrong kind, a wrong amount, a bad signature, an unannounced hash or a
      secret that does not fit: in every state of every run. */
  lemma NeverPanics(t: Terms, s: System, me: Side)
    requires TermsOk(t) && Inv(t, s) && Funded(t, |t.script|)
    ensures Step(t, s.Of(me), s.Inbox(me)) != Panic
  {
    hide Able, At, Linked, Funded, Step, In, Onward, Inv;
    SideInv(t, s, me);
    var k, k', inbox := s.Of(me).steps, s.Of(me.Other()).steps, s.Inbox(me);
    if k == LastStep(t) {
      EndFinishes(t, me, inbox);
    } else {
      AllAble(t, k + 1);
      if In(t, me, k) != [] && inbox == [] { StepWaits(t, me, k); } else { Proceeds(t, me, k, k', inbox); }
    }
  }

  lemma EndFinishes(t: Terms, me: Side, inbox: seq<Msg>)
    requires TermsOk(t) && Able(t, LastStep(t))
    ensures Step(t, At(t, me, LastStep(t)), inbox) == Finished
  {
    hide Able, Announced, StoreOf, Holdings;
  }

  lemma Proceeds(t: Terms, me: Side, k: nat, k': nat, inbox: seq<Msg>)
    requires TermsOk(t) && k < LastStep(t) && Able(t, k) && Able(t, k + 1) && k' <= LastStep(t) && Able(t, k')
    requires Linked(t, me, k, k', inbox) && (In(t, me, k) == [] || inbox != [])
    ensures Step(t, At(t, me, k), inbox).Go?
  {
    hide Able, At, Linked, Step, In;
    HeadIs(t, me, k, k', inbox);
    var rest := inbox[|In(t, me, k)|..];
    assert inbox == In(t, me, k) + rest;
    StepIs(t, me, k, rest);
  }

  /** A party behind the other always finds its message; on a level, one of the
      two has something to do. */
  lemma Supplied(t: Terms, me: Side, k: nat, k': nat, inbox: seq<Msg>)
    requires TermsOk(t) && k < LastStep(t) && Able(t, k) && Able(t, k + 1) && k' <= LastStep(t) && Able(t, k')
    requires Linked(t, me, k, k', inbox)
    requires k < k' || (k == k' && (k < 3 || t.script[Settled(k)].payer == me))
    ensures In(t, me, k) == [] || inbox != []
  {
    hide Able, Stream, Taken, CommitmentAt, HashOf, SecretOf;
    var o := me.Other();
    StreamGrows(t, o, k, k');
    if k >= 3 {
      var i := (k - 3) / 2;
      AbleDown(t, k, 3 + 2 * i);
      Aligned(t, me, i);
      StreamGrows(t, o, 3 + 2 * i, k');
      StreamStep(t, o, 3 + 2 * i);
      if (k - 3) % 2 == 1 { StreamStep(t, me, 3 + 2 * i); }
      if k < k' {
        StreamStep(t, o, k);
        StreamGrows(t, o, k + 1, k');
      }
    } else if k >= 1 {
      AbleDown(t, k, 1);
      StreamStart(t, me);
      StreamStart(t, o);
      StreamStep(t, me, 0);
      StreamStep(t, o, 0);
      if k == 2 { StreamStep(t, me, 1); StreamStep(t, o, 1); }
    }
  }

  lemma StreamStart(t: Terms, me: Side)
    requires TermsOk(t)
    ensures Able(t, 0) && Stream(t, me, 0) == [] && Taken(t, me, 0) == []
  {
  }

  /** No deadlock: until both are through the script, one of them can move. */
  lemma SomeoneMoves(t: Terms, s: System)
    requires TermsOk(t) && Inv(t, s) && Funded(t, |t.script|)
    requires s.a.steps < LastStep(t) || s.b.steps < LastStep(t)
    ensures Step(t, s.a, s.toA).Go? || Step(t, s.b, s.toB).Go?
  {
    hide Able, At, Linked, Funded, Step, In, Inv;
    SideInv(t, s, A);
    SideInv(t, s, B);
    var ka, kb := s.a.steps, s.b.steps;
    if ka < kb || (ka == kb && (ka < 3 || t.script[Settled(ka)].payer == A)) {
      AllAble(t, ka + 1);
      Supplied(t, A, ka, kb, s.toA);
      Proceeds(t, A, ka, kb, s.toA);
    } else {
      AllAble(t, kb + 1);
      Supplied(t, B, kb, ka, s.toB);
      Proceeds(t, B, kb, ka, s.toB);
    }
  }

  /** Through the script, both hold the balances it leads to, all the money is
      still there, and nothing is left on the links.  No run gets there with a
      script that cannot be paid. */
  lemma EndState(t: Terms, s: System)
    requires TermsOk(t) && Inv(t, s) && s.a.steps == s.b.steps == LastStep(t)
    ensures Funded(t, |t.script|)
    ensures s.a.bal == s.b.bal == After(t, |t.script|) && s.a.bal.Total() == t.opening.Total()
    ensures s.a.bal.a == Net(t, A, |t.script|) && s.a.bal.b == Net(t, B, |t.script|)
    ensures s.toA == [] && s.toB == []
  {
    hide Able, Linked, Stream, Taken, StoreOf, Holdings, Announced, Net;
    SideInv(t, s, A);
    SideInv(t, s, B);
    TotalKept(t, |t.script|);
    EndFunds(t);
    Aligned(t, A, |t.script|);
    Aligned(t, B, |t.script|);
    NothingLeft(t, A, s.toA);
    NothingLeft(t, B, s.toB);
    FundedIff(t, |t.script|);
  }

  lemma EndFunds(t: Terms)
    requires Able(t, LastStep(t))
    ensures Funded(t, |t.script|)
  {
    hide Funded;
  }

  lemma NothingLeft(t: Terms, me: Side, inbox: seq<Msg>)
    requires TermsOk(t) && Able(t, LastStep(t)) && Linked(t, me, LastStep(t), LastStep(t), inbox)
    requires Taken(t, me, LastStep(t)) == Stream(t, me.Other(), LastStep(t))
    ensures inbox == []
  {
    hide Able, Stream, Taken;
  }

  // ------------------------------------------------------------------
  // What each side can prove against the other
  // ------------------------------------------------------------------

  /** The message gives away the secret of state `m` of its sender. */
  ghost predicate GivesAway(t: Terms, sender: Side, msg: Msg, m: nat)
    requires m <= MAX_INDEX
  {
    (msg.Accept? || msg.Revoke?) && msg.secret == SecretOf(t, sender, m)
  }

  /** Whatever gives a secret away is sent with the next commitment in hand. */
  lemma {:induction false} SentLate(t: Terms, me: Side, k: nat, msg: Msg)
    requires TermsOk(t) && k <= LastStep(t) && Able(t, k) && msg in Stream(t, me, k) && (msg.Accept? || msg.Revoke?)
    ensures exists m: nat :: m + 1 < Held(t, me, k) && m <= MAX_INDEX && GivesAway(t, me, msg, m)
  {
    hide Able, CommitmentAt, HashOf, SecretOf;
    AbleDown(t, k, k - 1);
    if msg in Stream(t, me, k - 1) {
      SentLate(t, me, k - 1, msg);
    } else {
      assert msg in Out(t, me, k - 1);
      assert GivesAway(t, me, msg, Settled(k - 1));
    }
  }

  /** In every state of every run: a secret on its way belongs to a state that
      its sender has already replaced, and its sender holds the next
      commitment with the other's signature on it. */
  lemma SecretsComeLate(t: Terms, s: System, me: Side, msg: Msg)
    requires TermsOk(t) && Inv(t, s) && msg in s.Inbox(me.Other()) && (msg.Accept? || msg.Revoke?)
    ensures exists m: nat :: m + 1 < |s.Of(me).history| && m <= MAX_INDEX && GivesAway(t, me, msg, m)
    ensures forall n: nat | n < |s.Of(me).history| ::
              n <= |t.script| && Funded(t, n) && s.Of(me).history[n] == Holding(t, me, n)
  {
    hide Able, Linked, Stream, Taken, StoreOf, Announced, GivesAway, Holding, Funded, Inv;
    SideInv(t, s, me);
    SideInv(t, s, me.Other());
    var k := s.Of(me).steps;
    OnLink(t, me.Other(), s.Of(me.Other()).steps, k, s.Inbox(me.Other()), msg);
    SentLate(t, me, k, msg);
    HistoryLength(t, me, k);
    forall n: nat | n < |s.Of(me).history|
      ensures n <= |t.script| && Funded(t, n) && s.Of(me).history[n] == Holding(t, me, n)
    {
      HeldAt(t, me, k, n);
    }
  }

  lemma OnLink(t: Terms, me: Side, k: nat, k': nat, inbox: seq<Msg>, msg: Msg)
    requires TermsOk(t) && k <= LastStep(t) && Able(t, k) && k' <= LastStep(t) && Able(t, k')
    requires Linked(t, me, k, k', inbox) && msg in inbox
    ensures msg in Stream(t, me.Other(), k')
  {
    hide Able, Stream, Taken;
  }

  lemma HistoryLength(t: Terms, me: Side, k: nat)
    requires TermsOk(t) && k <= LastStep(t) && Able(t, k)
    ensures |At(t, me, k).history| == Held(t, me, k)
  {
    hide Able, StoreOf, Announced;
  }

  lemma HeldAt(t: Terms, me: Side, k: nat, n: nat)
    requires TermsOk(t) && k <= LastStep(t) && Able(t, k) && n < Held(t, me, k)
    ensures n <= |t.script| && Funded(t, n) && |At(t, me, k).history| == Held(t, me, k)
    ensures At(t, me, k).history[n] == Holding(t, me, n)
  {
    hide StoreOf, Announced, Holding, Funded;
    FundedDown(t, Checked(k), Held(t, me, k) - 1);
    FundedDown(t, Checked(k), n);
    HoldingsAt(t, me, Held(t, me, k), n);
  }

  lemma {:induction false} HoldingsAt(t: Terms, me: Side, count: nat, n: nat)
    requires TermsOk(t) && n < count <= |t.script| + 1 && Funded(t, count - 1) && Funded(t, n)
    ensures Holdings(t, me, count)[n] == Holding(t, me, n)
    decreases count
  {
    hide Holding;
    if n < count - 1 { HoldingsAt(t, me, count - 1, n); }
  }

  /** What `s` gets of state `n`: the fee comes off the funder's part. */
  ghost function Part(t: Terms, s: Side, n: nat): int
    requires n <= |t.script|
  {
    Net(t, s, n) - if s == A then 20_000 else 0
  }

  /** A commitment of state `n` for `me`: its own part back under the hash of its
      secret, the other's part to the other, each unless it is below 10 000. */
  ghost predicate Pays(t: Terms, me: Side, n: nat, tx: Tx)
    requires n <= |t.script| && n <= MAX_INDEX
  {
    && tx.holder == me && tx.state == n
    && (if Part(t, me, n) >= 10_000 then tx.toLocal == Some((t.digest(SecretOf(t, me, n)), Part(t, me, n)))
        else tx.toLocal == None)
    && (if Part(t, me.Other(), n) >= 10_000 then tx.toOther == Some(Part(t, me.Other(), n)) else tx.toOther == None)
  }

  /** In every state of every run, the commitments a party holds pay each side what
      it has at that state, are signed by the other, and spend all the money: what
      they pay, what is too small to pay, and the fee. */
  lemma CommitmentPays(t: Terms, s: System, me: Side, n: nat)
    requires TermsOk(t) && Inv(t, s) && n < |s.Of(me).history|
    ensures n <= |t.script| && Pays(t, me, n, s.Of(me).history[n].0)
    ensures s.Of(me).history[n].1 == Sig(me.Other(), s.Of(me).history[n].0)
    ensures Part(t, A, n) >= 0 && Part(t, B, n) >= 0 && Part(t, A, n) + Part(t, B, n) + 20_000 == t.opening.Total()
  {
    hide Able, Linked, SecretOf, Announced, Holdings, Inv, StoreOf;
    SideInv(t, s, me);
    HistoryLength(t, me, s.Of(me).steps);
    HeldAt(t, me, s.Of(me).steps, n);
    CommitmentIs(t, me, n);
  }

  lemma CommitmentIs(t: Terms, me: Side, n: nat)
    requires TermsOk(t) && n <= |t.script| && Funded(t, n)
    ensures Pays(t, me, n, Holding(t, me, n).0) && Holding(t, me, n).1 == Sig(me.Other(), Holding(t, me, n).0)
    ensures Part(t, A, n) >= 0 && Part(t, B, n) >= 0 && Part(t, A, n) + Part(t, B, n) + 20_000 == t.opening.Total()
  {
    hide SecretOf, Funded, After, Paid;
    FundedIff(t, n);
    assert Net(t, A, n) >= 20_000;
  }

  /** Each side can produce the secret of every state the other has revoked to
      it, holds the hashes of exactly the two next ones, and has at most the
      other's last two commitments left to watch for. */
  lemma CanPunish(t: Terms, s: System, me: Side)
    requires TermsOk(t) && Inv(t, s)
    ensures var p, m := s.Of(me), Settled(s.Of(me).steps);
            && m <= |t.script|
            && (forall n: nat | n < m :: Got(t.h, p.store.known, MAX_INDEX - n, 0) == Some(SecretOf(t, me.Other(), n)))
            && (p.steps >= 2 ==> p.hashes == Announced(t, me.Other(), m))
            && |s.Of(me.Other()).history| <= m + 2
  {
    hide Able, Linked, SecretOf, Announced, Holdings, Got, Inv;
    SideInv(t, s, me);
    SideInv(t, s, me.Other());
    var m := Settled(s.Of(me).steps);
    forall n: nat | n < m
      ensures Got(t.h, StoreOf(t, me.Other(), m).known, MAX_INDEX - n, 0) == Some(SecretOf(t, me.Other(), n))
    {
      StoreHolds(t, me.Other(), m);
      GetExact(t.h, StoreOf(t, me.Other(), m), Revealed(t, me.Other(), m), MAX_INDEX - n);
      RevealedAt(t, me.Other(), m, n);
    }
    HistoryLength(t, me.Other(), s.Of(me.Other()).steps);
    NotFarAhead(t, me.Other(), s.Of(me.Other()).steps, s.Of(me).steps, s.Inbox(me.Other()));
  }

  /** The secret a party has of a revoked state opens what the other's commitment
      of that state pays its holder. */
  lemma PunishmentFits(t: Terms, s: System, me: Side, n: nat)
    requires TermsOk(t) && Inv(t, s) && n < Settled(s.Of(me).steps) && n < |s.Of(me.Other()).history|
    ensures n <= MAX_INDEX && Got(t.h, s.Of(me).store.known, MAX_INDEX - n, 0).Some?
    ensures var tx := s.Of(me.Other()).history[n].0;
            tx.toLocal.Some? ==> t.digest(Got(t.h, s.Of(me).store.known, MAX_INDEX - n, 0).value) == tx.toLocal.value.0
  {
    hide Inv, Got, SecretOf, Announced, Part;
    CanPunish(t, s, me);
    CommitmentPays(t, s, me.Other(), n);
    assert Got(t.h, s.Of(me).store.known, MAX_INDEX - n, 0) == Some(SecretOf(t, me.Other(), n));
  }

  lemma {:induction false} RevealedAt(t: Terms, s: Side, m: nat, n: nat)
    requires n < m <= MAX_INDEX + 1
    ensures Revealed(t, s, m)[n] == SecretOf(t, s, n)
    decreases m
  {
    hide SecretOf;
    if n < m - 1 { RevealedAt(t, s, m - 1, n); }
  }

  /** A party that has taken more than was sent in the first `j` updates follows
      one that has begun the next. */
  lemma Behind(t: Terms, me: Side, k: nat, k': nat, inbox: seq<Msg>, j: nat)
    requires TermsOk(t) && 3 + 2 * j <= k <= LastStep(t) && Able(t, k) && k' <= LastStep(t) && Able(t, k')
    requires Linked(t, me, k, k', inbox) && Able(t, 3 + 2 * j)
    ensures |Taken(t, me, k)| > |Taken(t, me, 3 + 2 * j)| ==> k' >= 4 + 2 * j
  {
    hide Able, Stream, Taken;
    Aligned(t, me, j);
    if k' < 4 + 2 * j { StreamGrows(t, me.Other(), k', 3 + 2 * j); }
  }

  lemma TakesSome(t: Terms, me: Side, i: nat)
    requires TermsOk(t) && i < |t.script| && Able(t, 4 + 2 * i) && Able(t, 3 + 2 * i)
    ensures t.script[i].payer != me ==> |Taken(t, me, 4 + 2 * i)| > |Taken(t, me, 3 + 2 * i)|
    ensures Able(t, 5 + 2 * i) && |Taken(t, me, 5 + 2 * i)| > |Taken(t, me, 3 + 2 * i)|
  {
    hide Stream, Taken, CommitmentAt, HashOf, SecretOf, Funded;
    PendingFunds(t, i);
    StreamStep(t, me, 3 + 2 * i);
    StreamStep(t, me, 4 + 2 * i);
  }

  /** A party cannot get ahead of what it has been sent. */
  lemma NotFarAhead(t: Terms, me: Side, k: nat, k': nat, inbox: seq<Msg>)
    requires TermsOk(t) && k <= LastStep(t) && Able(t, k) && k' <= LastStep(t) && Able(t, k')
    requires Linked(t, me, k, k', inbox)
    ensures Held(t, me, k) <= Settled(k') + 2
  {
    hide Able, Linked, Stream, Taken;
    if k >= 3 {
      var j := Settled(k);
      AbleDown(t, k, 3 + 2 * j);
      if k == 4 + 2 * j && t.script[j].payer != me {
        TakesSome(t, me, j);
        Behind(t, me, k, k', inbox, j);
      } else if j > 0 {
        AbleDown(t, k, 2 + 2 * j);
        AbleDown(t, k, 1 + 2 * j);
        TakesSome(t, me, j - 1);
        StreamGrows(t, me, 3 + 2 * j, k);
        Behind(t, me, k, k', inbox, j - 1);
      }
    }
  }

  // ------------------------------------------------------------------
  // Grouping payments
  // ------------------------------------------------------------------

  /** Where a script leads from an opening balance; none when some payment, or
      the fee at some state, cannot be paid. */
  ghost function Ran(opening: Bal, script: seq<Payment>): Option<Bal> {
    if script == [] then if opening.a >= COMMIT_FEE then Some(opening) else None
    else
      match Ran(opening, Front(script))
      case None => None
      case Some(bal) =>
        match Pay(bal, Last(script))
        case None => None
        case Some(next) => if next.a >= COMMIT_FEE then Some(next) else None
  }

  lemma {:induction false} RanIs(t: Terms, i: nat)
    requires i <= |t.script|
    ensures Ran(t.opening, t.script[..i]) == if Funded(t, i) then Some(After(t, i)) else None
  {
    if i > 0 {
      RanIs(t, i - 1);
      assert Front(t.script[..i]) == t.script[..i - 1];
    }
  }

  lemma RanPush(opening: Bal, script: seq<Payment>, p: Payment)
    ensures Ran(opening, script + [p]) ==
            match Ran(opening, script)
            case None => None
            case Some(bal) =>
              (match Pay(bal, p)
               case None => None
               case Some(next) => if next.a >= COMMIT_FEE then Some(next) else None)
  {
    assert Front(script + [p]) == script;
  }

  function Sum(counts: seq<nat>): nat { if counts == [] then 0 else Sum(Front(counts)) + Last(counts) }

  /** One update for two payments the same way leads to the same place. */
  lemma Joined(opening: Bal, updates: seq<Payment>, v: nat)
    requires |updates| > 0
    ensures var last := Last(updates);
            var more := updates + [Payment(last.payer, v)];
            var joined := updates[|updates| - 1 := Payment(last.payer, last.amount + v)];
            Ran(opening, more).Some? ==> Ran(opening, joined) == Ran(opening, more)
  {
    hide Ran;
    var last := Last(updates);
    RanPush(opening, updates, Payment(last.payer, v));
    RanPush(opening, Front(updates), last);
    RanPush(opening, Front(updates), Payment(last.payer, last.amount + v));
    assert updates == Front(updates) + [last];
    var joint := Payment(last.payer, last.amount + v);
    assert updates[|updates| - 1 := joint] == Front(updates) + [joint];
  }

  /** Whatever the opening, what can be paid as `script` can be paid as `updates`,
      to the same end. */
  ghost predicate Regroups(script: seq<Payment>, updates: seq<Payment>) {
    && |updates| <= |script|
    && forall opening :: Ran(opening, script).Some? ==> Ran(opening, updates) == Ran(opening, script)
  }

  /** The channel with its payments grouped is one the protocol runs on: it opens
      where the other does, can be paid to its end, and ends where the other does. */
  lemma GroupedTerms(t: Terms, updates: seq<Payment>)
    requires TermsOk(t) && Funded(t, |t.script|) && Regroups(t.script, updates)
    ensures var g := t.(script := updates);
            TermsOk(g) && Funded(g, |updates|) && After(g, |updates|) == After(t, |t.script|)
  {
    hide Funded, After, Ran;
    var g := t.(script := updates);
    assert t.script[..|t.script|] == t.script && updates[..|updates|] == updates;
    RanIs(t, |t.script|);
    RanIs(g, |updates|);
  }

  /** On it no receive ever panics, and through it both parties hold the balances
      of the payments one by one. */
  lemma GroupedRuns(t: Terms, updates: seq<Payment>, s: System, me: Side)
    requires TermsOk(t) && Funded(t, |t.script|) && Regroups(t.script, updates)
    requires TermsOk(t.(script := updates)) && Inv(t.(script := updates), s)
    ensures Step(t.(script := updates), s.Of(me), s.Inbox(me)) != Panic
    ensures s.a.steps == s.b.steps == LastStep(t.(script := updates)) ==>
              s.a.bal == s.b.bal == After(t, |t.script|) && s.toA == [] && s.toB == []
  {
    hide Funded, After, Ran, Inv, Regroups, Step;
    var g := t.(script := updates);
    GroupedTerms(t, updates);
    NeverPanics(g, s, me);
    if s.a.steps == s.b.steps == LastStep(g) { EndState(g, s); }
  }

  /** Groups of at most `max` payments, `n` in all. */
  ghost predicate Counted(counts: seq<nat>, max: nat, n: nat) {
    Sum(counts) == n && forall i | 0 <= i < |counts| :: 1 <= counts[i] <= Max(max, 1)
  }

  /** Groups payments in a row the same way into updates of at most `max`, the
      first `singles` staying alone.  Every payment is counted once, and a
      script that can be paid can be paid grouped, to the same end. */
  method Batched(script: seq<Payment>, singles: nat, max: nat) returns (updates: seq<Payment>, counts: seq<nat>)
    requires 0 < singles <= |script|
    ensures |counts| == |updates| >= singles && updates[..singles] == script[..singles]
    ensures Counted(counts, max, |script|) && Regroups(script, updates)
    ensures forall t: Terms | t.script == script && TermsOk(t) && Funded(t, |script|) ::
              var g := t.(script := updates);
              TermsOk(g) && Funded(g, |updates|) && After(g, |updates|) == After(t, |script|)
  {
    hide Regroups, Funded, After, Counted, Sum;
    updates, counts := script[..singles], Ones(singles);
    CountedOnes(singles, max);
    RegroupsSelf(script[..singles]);
    for j := singles to |script|
      invariant |counts| == |updates| >= singles && updates[..singles] == script[..singles]
      invariant Counted(counts, max, j) && Regroups(script[..j], updates)
    {
      var p, last := script[j], |updates| - 1;
      assert script[..j + 1] == script[..j] + [p];
      BatchedNext(script[..j], updates, p);
      if |updates| > singles && updates[last].payer == p.payer && counts[last] < max {
        CountedMore(counts, max, j);
        updates := updates[last := Payment(p.payer, updates[last].amount + p.amount)];
        counts := counts[last := counts[last] + 1];
      } else {
        CountedOne(counts, max, j);
        updates, counts := updates + [p], counts + [1];
      }
    }
    assert script[..|script|] == script;
    forall t: Terms | t.script == script && TermsOk(t) && Funded(t, |script|)
      ensures var g := t.(script := updates);
              TermsOk(g) && Funded(g, |updates|) && After(g, |updates|) == After(t, |script|)
    {
      GroupedTerms(t, updates);
    }
  }

  lemma RegroupsSelf(script: seq<Payment>)
    ensures Regroups(script, script)
  {
    hide Ran;
  }

  /** One more payment, on its own or joined to the last update. */
  lemma BatchedNext(done: seq<Payment>, updates: seq<Payment>, p: Payment)
    requires |updates| > 0 && Regroups(done, updates)
    ensures Regroups(done + [p], updates + [p])
    ensures Last(updates).payer == p.payer ==>
              Regroups(done + [p], updates[|updates| - 1 := Payment(p.payer, Last(updates).amount + p.amount)])
  {
    hide Ran;
    forall opening | Ran(opening, done + [p]).Some?
      ensures Ran(opening, updates + [p]) == Ran(opening, done + [p])
      ensures Last(updates).payer == p.payer ==>
                Ran(opening, updates[|updates| - 1 := Payment(p.payer, Last(updates).amount + p.amount)])
                == Ran(opening, done + [p])
    {
      RanPush(opening, done, p);
      RanPush(opening, updates, p);
      Joined(opening, updates, p.amount);
    }
  }

  lemma CountedOnes(n: nat, max: nat)
    ensures Counted(Ones(n), max, n)
  {
  }

  lemma CountedOne(counts: seq<nat>, max: nat, n: nat)
    requires Counted(counts, max, n)
    ensures Counted(counts + [1], max, n + 1)
  {
    hide Sum;
    SumPush(counts, 1);
  }

  lemma CountedMore(counts: seq<nat>, max: nat, n: nat)
    requires Counted(counts, max, n) && counts != [] && Last(counts) < max
    ensures Counted(counts[|counts| - 1 := Last(counts) + 1], max, n + 1)
  {
    hide Sum;
    assert counts == Front(counts) + [Last(counts)];
    assert counts[|counts| - 1 := Last(counts) + 1] == Front(counts) + [Last(counts) + 1];
    SumPush(Front(counts), Last(counts));
    SumPush(Front(counts), Last(counts) + 1);
  }

  lemma SumPush(counts: seq<nat>, n: nat)
    ensures Sum(counts + [n]) == Sum(counts) + n
  {
    assert Front(counts + [n]) == counts;
  }

  function Ones(n: nat): (ones: seq<nat>)
    ensures |ones| == n && Sum(ones) == n && forall i | 0 <= i < n :: ones[i] == 1
  {
    if n == 0 then []
    else
      var rest := Ones(n - 1);
      SumPush(rest, 1);
      rest + [1]
  }
}
