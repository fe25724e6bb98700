/** The bounded request ring between exec threads and the scheduler: every
    interleaving of any number of producers and consumers, one atomic access or
    one payload word at a time. Counters are unbounded. */
module RequestRing {

  type Word = nat
  type Payload = seq<Word>

  /** A thread inside push.
      Entering   about to load head_;
      Loaded     head_ loaded, about to load tail_;
      Claiming   not full as far as it knows, about to compare-exchange tail_;
      Writing    owns ticket t, `done` words of the cell written;
      Storing    all words written, about to publish the generation. */
  datatype Producer =
    | Out
    | Entering(r: Payload)
    | Loaded(r: Payload, h: nat)
    | Claiming(r: Payload, h: nat, t: nat)
    | Writing(r: Payload, t: nat, done: nat)
    | Storing(r: Payload, t: nat)

  /** A thread inside pop. */
  datatype Consumer =
    | Away
    | Starting
    | AtTail(h: nat)
    | Checking(h: nat)
    | Reading(h: nat, acc: Payload)
    | Taking(h: nat, acc: Payload)
    | ReportedEmpty

  /** claimed and popped are history: payloads in the order of their tickets, and
      in the order they were handed out. */
  datatype Ring = Ring(
    head: nat, tail: nat,
    cells: seq<Payload>, seqs: seq<nat>,
    producers: seq<Producer>, consumers: seq<Consumer>,
    claimed: seq<Payload>, popped: seq<Payload>)

  datatype Config = Config(cap: nat, words: nat) {
    predicate Valid() { cap >= 1 }
  }

  // ---- steps ----------------------------------------------------------------------

  function WithProducer(s: Ring, p: nat, x: Producer): Ring
    requires p < |s.producers|
  {
    s.(producers := s.producers[p := x])
  }

  function WithConsumer(s: Ring, c: nat, x: Consumer): Ring
    requires c < |s.consumers|
  {
    s.(consumers := s.consumers[c := x])
  }

  ghost predicate ProducerStep(cfg: Config, s: Ring, s': Ring, p: nat)
    requires cfg.Valid() && p < |s.producers| && |s.cells| == |s.seqs| == cfg.cap
  {
    match s.producers[p]
    case Out => exists r: Payload :: |r| == cfg.words && s' == WithProducer(s, p, Entering(r))
    case Entering(r) => s' == WithProducer(s, p, Loaded(r, s.head))
    case Loaded(r, h) =>
      s' == WithProducer(s, p, if s.tail - h >= cfg.cap then Entering(r) else Claiming(r, h, s.tail))
    case Claiming(r, h, t) =>
      || s' == WithProducer(s, p, Entering(r))
      || (s.tail == t && s' == WithProducer(s, p, Writing(r, t, 0)).(tail := t + 1, claimed := s.claimed + [r]))
    case Writing(r, t, done) =>
      if done >= |r| then s' == WithProducer(s, p, Storing(r, t))
      else
        && done < |s.cells[t % cfg.cap]|
        && s' == WithProducer(s, p, Writing(r, t, done + 1)).(
                   cells := s.cells[t % cfg.cap := s.cells[t % cfg.cap][done := r[done]]])
    case Storing(r, t) => s' == WithProducer(s, p, Out).(seqs := s.seqs[t % cfg.cap := t + 1])
  }

  ghost predicate ConsumerStep(cfg: Config, s: Ring, s': Ring, c: nat)
    requires cfg.Valid() && c < |s.consumers| && |s.cells| == |s.seqs| == cfg.cap
  {
    match s.consumers[c]
    case Away => s' == WithConsumer(s, c, Starting)
    case Starting => s' == WithConsumer(s, c, AtTail(s.head))
    case AtTail(h) => s' == WithConsumer(s, c, if h == s.tail then ReportedEmpty else Checking(h))
    case Checking(h) => s' == WithConsumer(s, c, if s.seqs[h % cfg.cap] != h + 1 then Starting else Reading(h, []))
    case Reading(h, acc) =>
      if |acc| >= cfg.words then s' == WithConsumer(s, c, Taking(h, acc))
      else |acc| < |s.cells[h % cfg.cap]| && s' == WithConsumer(s, c, Reading(h, acc + [s.cells[h % cfg.cap][|acc|]]))
    case Taking(h, acc) =>
      || s' == WithConsumer(s, c, Starting)
      || (s.head == h && s' == WithConsumer(s, c, Away).(head := h + 1, popped := s.popped + [acc]))
    case ReportedEmpty => s' == WithConsumer(s, c, Away)
  }

  ghost predicate Next(cfg: Config, s: Ring, s': Ring)
    requires cfg.Valid() && |s.cells| == |s.seqs| == cfg.cap
  {
    || (exists p: nat :: p < |s.producers| && ProducerStep(cfg, s, s', p))
    || (exists c: nat :: c < |s.consumers| && ConsumerStep(cfg, s, s', c))
  }

  ghost predicate Init(cfg: Config, s: Ring) {
    && s.head == s.tail == 0 && |s.cells| == |s.seqs| == cfg.cap
    && (forall i :: 0 <= i < cfg.cap ==> |s.cells[i]| == cfg.words && s.seqs[i] == 0)
    && (forall p :: 0 <= p < |s.producers| ==> s.producers[p] == Out)
    && (forall c :: 0 <= c < |s.consumers| ==> s.consumers[c] == Away)
    && s.claimed == [] && s.popped == []
  }

  // ---- invariant --------------------------------------------------------------------

  /** Producer x holds ticket t. */
  predicate Holds(x: Producer, t: nat) {
    (x.Writing? || x.Storing?) && x.t == t
  }

  ghost predicate Owned(s: Ring, t: nat) {
    exists p :: 0 <= p < |s.producers| && Holds(s.producers[p], t)
  }

  /** Ticket t is published and its cell holds exactly its payload. */
  ghost predicate Published(cfg: Config, s: Ring, t: nat)
    requires cfg.Valid() && |s.cells| == |s.seqs| == cfg.cap
  {
    t < |s.claimed| && s.seqs[t % cfg.cap] == t + 1 && s.cells[t % cfg.cap] == s.claimed[t]
  }

  ghost predicate Shape(cfg: Config, s: Ring) {
    && cfg.Valid() && |s.cells| == |s.seqs| == cfg.cap
    && (forall i :: 0 <= i < cfg.cap ==> |s.cells[i]| == cfg.words)
    && s.head <= s.tail <= s.head + cfg.cap && |s.claimed| == s.tail
    && (forall t :: 0 <= t < s.tail ==> |s.claimed[t]| == cfg.words)
    && s.popped == s.claimed[..s.head]
  }

  /** Outstanding tickets are held by one producer or published, never both; a
      generation names a ticket that was claimed and is no longer held. */
  ghost predicate Tickets(cfg: Config, s: Ring)
    requires Shape(cfg, s)
  {
    && (forall t: nat :: s.head <= t < s.tail ==> Owned(s, t) || Published(cfg, s, t))
    && (forall p, q, t: nat ::
         0 <= p < |s.producers| && 0 <= q < |s.producers| && Holds(s.producers[p], t) && Holds(s.producers[q], t) ==>
             p == q)
    && (forall i ::
         0 <= i < cfg.cap ==>
             s.seqs[i] <= s.tail && (s.seqs[i] > 0 ==> (s.seqs[i] - 1) % cfg.cap == i && !Owned(s, s.seqs[i] - 1)))
  }

  ghost predicate ProducerOk(cfg: Config, s: Ring, x: Producer)
    requires Shape(cfg, s)
  {
    match x
    case Out => true
    case Entering(r) => |r| == cfg.words
    case Loaded(r, h) => |r| == cfg.words && h <= s.head
    case Claiming(r, h, t) => |r| == cfg.words && h <= s.head && t < h + cfg.cap
    case Writing(r, t, done) =>
      && s.head <= t < s.tail && s.claimed[t] == r && done <= |r|
      && s.cells[t % cfg.cap][..done] == r[..done]
    case Storing(r, t) => s.head <= t < s.tail && s.claimed[t] == r && s.cells[t % cfg.cap] == r
  }

  /** What a consumer has read is right as long as nobody popped its head. */
  ghost predicate ConsumerOk(cfg: Config, s: Ring, x: Consumer)
    requires Shape(cfg, s)
  {
    match x
    case AtTail(h) => h <= s.head
    case Checking(h) => h <= s.head && h < s.tail
    case Reading(h, acc) =>
      h <= s.head &&
          (h == s.head ==> h < s.tail && Published(cfg, s, h) && |acc| <= cfg.words && acc == s.claimed[h][..|acc|])
    case Taking(h, acc) => h <= s.head && (h == s.head ==> h < s.tail && Published(cfg, s, h) && acc == s.claimed[h])
    case _ => true
  }

  ghost predicate Inv(cfg: Config, s: Ring) {
    && Shape(cfg, s) && Tickets(cfg, s)
    && (forall p :: 0 <= p < |s.producers| ==> ProducerOk(cfg, s, s.producers[p]))
    && (forall c :: 0 <= c < |s.consumers| ==> ConsumerOk(cfg, s, s.consumers[c]))
  }

  lemma InitEstablishesInv(cfg: Config, s: Ring)
    requires cfg.Valid() && Init(cfg, s)
    ensures Inv(cfg, s)
  {
  }

  /** Two tickets of one window have different cells. */
  lemma SlotsApart(cap: nat, lo: nat, t: nat, u: nat)
    requires cap >= 1 && lo <= t < lo + cap && lo <= u < lo + cap && t % cap == u % cap
    ensures t == u
  {
    var a, b := t / cap, u / cap;
    assert t == a * cap + t % cap && u == b * cap + u % cap;
    if a > b { Gap(a, b, cap); } else if b > a { Gap(b, a, cap); }
  }

  lemma Gap(a: nat, b: nat, cap: nat)
    requires a > b
    ensures a * cap >= b * cap + cap
  {
    assert (a - b - 1) * cap >= 0;
  }

  /** A held ticket is not published. */
  lemma HeldNotPublished(cfg: Config, s: Ring, p: nat, t: nat)
    requires Shape(cfg, s) && Tickets(cfg, s) && p < |s.producers| && Holds(s.producers[p], t)
    ensures s.seqs[t % cfg.cap] != t + 1
  {
    assert Owned(s, t);
    assert 0 <= t % cfg.cap < cfg.cap;
  }

  lemma PublishedNotHeld(cfg: Config, s: Ring, t: nat)
    requires Shape(cfg, s) && Tickets(cfg, s) && s.seqs[t % cfg.cap] == t + 1
    ensures forall q :: 0 <= q < |s.producers| ==> !Holds(s.producers[q], t)
  {
    assert 0 <= t % cfg.cap < cfg.cap;
    assert !Owned(s, t);
  }

  /** The cell of ticket t belongs to no other ticket of the window. */
  lemma OwnCell(cap: nat, lo: nat, t: nat)
    requires cap >= 1 && lo <= t < lo + cap
    ensures forall u: nat :: lo <= u < lo + cap && u != t ==> u % cap != t % cap
  {
    forall u: nat | lo <= u < lo + cap && u != t ensures u % cap != t % cap {
      if u % cap == t % cap { SlotsApart(cap, lo, t, u); }
    }
  }

  // ---- preservation ---------------------------------------------------------------------

  /** A producer moves without touching shared state or its ticket. */
  lemma ProducerLocal(cfg: Config, s: Ring, s': Ring, p: nat, x: Producer)
    requires Inv(cfg, s) && p < |s.producers| && s' == WithProducer(s, p, x) && ProducerOk(cfg, s, x)
    requires forall t: nat :: Holds(x, t) <==> Holds(s.producers[p], t)
    ensures Inv(cfg, s')
  {
    forall t: nat ensures Owned(s', t) <==> Owned(s, t) {
      if q :| 0 <= q < |s.producers| && Holds(s.producers[q], t) {
        assert Holds(s'.producers[q], t);
      }
      if q :| 0 <= q < |s'.producers| && Holds(s'.producers[q], t) {
        assert Holds(s.producers[q], t);
      }
    }
    forall t: nat | s.head <= t < s.tail ensures Owned(s', t) || Published(cfg, s', t) {
    }
    forall q | 0 <= q < |s'.producers| ensures ProducerOk(cfg, s', s'.producers[q]) {
      assert ProducerOk(cfg, s, s'.producers[q]);
    }
    forall c | 0 <= c < |s'.consumers| ensures ConsumerOk(cfg, s', s'.consumers[c]) {
      assert ConsumerOk(cfg, s, s.consumers[c]);
    }
  }

  /** A producer wins the tail: its payload gets the next ticket. */
  lemma ClaimPreserves(cfg: Config, s: Ring, s': Ring, p: nat)
    requires Inv(cfg, s) && p < |s.producers| && s.producers[p].Claiming? && s.tail == s.producers[p].t
    requires var r := s.producers[p].r;
             s' == WithProducer(s, p, Writing(r, s.tail, 0)).(tail := s.tail + 1, claimed := s.claimed + [r])
    ensures Inv(cfg, s')
  {
    var r, t := s.producers[p].r, s.tail;
    assert ProducerOk(cfg, s, s.producers[p]);
    assert Shape(cfg, s');
    forall q | 0 <= q < |s.producers| ensures !Holds(s.producers[q], t) {
      assert ProducerOk(cfg, s, s.producers[q]);
    }
    forall u: nat ensures Owned(s', u) <==> Owned(s, u) || u == t {
      if q :| 0 <= q < |s.producers| && Holds(s.producers[q], u) {
        assert Holds(s'.producers[q], u);
      }
      if u == t { assert Holds(s'.producers[p], t); }
      if q :| 0 <= q < |s'.producers| && Holds(s'.producers[q], u) {
        if q != p { assert Holds(s.producers[q], u); }
      }
    }
    forall u: nat | s'.head <= u < s'.tail ensures Owned(s', u) || Published(cfg, s', u) {
      if u < t { assert Owned(s, u) || Published(cfg, s, u); }
    }
    forall q | 0 <= q < |s'.producers| ensures ProducerOk(cfg, s', s'.producers[q]) {
      if q != p { assert ProducerOk(cfg, s, s.producers[q]); }
    }
    forall c | 0 <= c < |s'.consumers| ensures ConsumerOk(cfg, s', s'.consumers[c]) {
      assert ConsumerOk(cfg, s, s.consumers[c]);
    }
  }

  /** A word is written to the cell of a held ticket: no other outstanding ticket uses that cell. */
  lemma WritePreserves(cfg: Config, s: Ring, s': Ring, p: nat)
    requires Inv(cfg, s) && p < |s.producers| && s.producers[p].Writing? && s.producers[p].done < |s.producers[p].r|
    requires var Writing(r, t, done) := s.producers[p];
             && done < |s.cells[t % cfg.cap]|
             && s' == WithProducer(s, p,
                  Writing(r, t, done + 1)).(cells := s.cells[t % cfg.cap := s.cells[t % cfg.cap][done := r[done]]])
    ensures Inv(cfg, s')
  {
    var Writing(r, t, done) := s.producers[p];
    assert ProducerOk(cfg, s, s.producers[p]);
    HeldNotPublished(cfg, s, p, t);
    forall u: nat ensures Owned(s', u) <==> Owned(s, u) {
      if q :| 0 <= q < |s.producers| && Holds(s.producers[q], u) { assert Holds(s'.producers[q], u); }
      if q :| 0 <= q < |s'.producers| && Holds(s'.producers[q], u) { assert Holds(s.producers[q], u); }
    }
    OwnCell(cfg.cap, s.head, t);
    forall u: nat | s.head <= u < s.tail && Published(cfg, s, u) ensures Published(cfg, s', u) {
    }
    forall q | 0 <= q < |s'.producers| ensures ProducerOk(cfg, s', s'.producers[q]) {
      assert ProducerOk(cfg, s, s.producers[q]);
      if q == p {
        WordWritten(s.cells[t % cfg.cap], r, done);
      } else if s.producers[q].Writing? || s.producers[q].Storing? {
        assert Holds(s.producers[q], s.producers[q].t) && Holds(s.producers[p], t);
      }
    }
    forall c | 0 <= c < |s'.consumers| ensures ConsumerOk(cfg, s', s'.consumers[c]) {
      assert ConsumerOk(cfg, s, s.consumers[c]);
    }
  }

  lemma WordWritten(cell: Payload, r: Payload, done: nat)
    requires |cell| == |r| && done < |r| && cell[..done] == r[..done]
    ensures cell[done := r[done]][..done + 1] == r[..done + 1]
  {
    var next := cell[done := r[done]];
    forall i | 0 <= i < done + 1 ensures next[i] == r[i] {
      if i < done { assert cell[i] == cell[..done][i] == r[..done][i]; }
    }
  }

  /** The generation of a fully written ticket is stored: the ticket is published. */
  lemma PublishPreserves(cfg: Config, s: Ring, s': Ring, p: nat)
    requires Inv(cfg, s) && p < |s.producers| && s.producers[p].Storing?
    requires s' == WithProducer(s, p, Out).(seqs := s.seqs[s.producers[p].t % cfg.cap := s.producers[p].t + 1])
    ensures Inv(cfg, s')
  {
    var t := s.producers[p].t;
    assert ProducerOk(cfg, s, s.producers[p]) && Holds(s.producers[p], t);
    forall u: nat ensures Owned(s', u) <==> Owned(s, u) && u != t {
      if q :| 0 <= q < |s.producers| && Holds(s.producers[q], u) {
        if u != t { assert Holds(s'.producers[q], u); }
      }
      if q :| 0 <= q < |s'.producers| && Holds(s'.producers[q], u) { assert Holds(s.producers[q], u); }
    }
    OwnCell(cfg.cap, s.head, t);
    HeldNotPublished(cfg, s, p, t);
    forall u: nat | s.head <= u < s.tail ensures Owned(s', u) || Published(cfg, s', u) {
      assert Owned(s, u) || Published(cfg, s, u);
    }
    forall q | 0 <= q < |s'.producers| ensures ProducerOk(cfg, s', s'.producers[q]) {
      assert ProducerOk(cfg, s, s.producers[q]);
    }
    forall c | 0 <= c < |s'.consumers| ensures ConsumerOk(cfg, s', s'.consumers[c]) {
      assert ConsumerOk(cfg, s, s.consumers[c]);
    }
  }

  /** A consumer moves without taking anything. */
  lemma ConsumerLocal(cfg: Config, s: Ring, s': Ring, c: nat, x: Consumer)
    requires Inv(cfg, s) && c < |s.consumers| && s' == WithConsumer(s, c, x) && ConsumerOk(cfg, s, x)
    ensures Inv(cfg, s')
  {
    forall t: nat ensures Owned(s', t) <==> Owned(s, t) {
    }
    forall t: nat | s.head <= t < s.tail ensures Owned(s', t) || Published(cfg, s', t) {
      assert Owned(s, t) || Published(cfg, s, t);
    }
    forall q | 0 <= q < |s'.producers| ensures ProducerOk(cfg, s', s'.producers[q]) {
      assert ProducerOk(cfg, s, s.producers[q]);
    }
    forall d | 0 <= d < |s'.consumers| ensures ConsumerOk(cfg, s', s'.consumers[d]) {
      assert ConsumerOk(cfg, s, s'.consumers[d]);
    }
  }

  /** A consumer wins the head: what it read is the oldest claimed payload. */
  lemma TakePreserves(cfg: Config, s: Ring, s': Ring, c: nat)
    requires Inv(cfg, s) && c < |s.consumers| && s.consumers[c].Taking? && s.head == s.consumers[c].h
    requires s' == WithConsumer(s, c, Away).(head := s.head + 1, popped := s.popped + [s.consumers[c].acc])
    ensures Inv(cfg, s') && s.consumers[c].acc == s.claimed[s.head] && s.head < s.tail
  {
    var h := s.head;
    assert ConsumerOk(cfg, s, s.consumers[c]);
    PublishedNotHeld(cfg, s, h);
    assert s.claimed[..h + 1] == s.claimed[..h] + [s.claimed[h]];
    forall t: nat ensures Owned(s', t) <==> Owned(s, t) {
    }
    forall t: nat | s'.head <= t < s'.tail ensures Owned(s', t) || Published(cfg, s', t) {
      assert Owned(s, t) || Published(cfg, s, t);
    }
    forall q | 0 <= q < |s'.producers| ensures ProducerOk(cfg, s', s'.producers[q]) {
      assert ProducerOk(cfg, s, s.producers[q]);
    }
    forall d | 0 <= d < |s'.consumers| ensures ConsumerOk(cfg, s', s'.consumers[d]) {
      assert ConsumerOk(cfg, s, s.consumers[d]);
    }
  }

  lemma ProducerPreserves(cfg: Config, s: Ring, s': Ring, p: nat)
    requires Inv(cfg, s) && p < |s.producers| && ProducerStep(cfg, s, s', p)
    ensures Inv(cfg, s')
  {
    assert ProducerOk(cfg, s, s.producers[p]);
    hide Inv, Tickets;
    match s.producers[p]
    case Out =>
      var r: Payload :| |r| == cfg.words && s' == WithProducer(s, p, Entering(r));
      ProducerLocal(cfg, s, s', p, Entering(r));
    case Entering(r) => ProducerLocal(cfg, s, s', p, Loaded(r, s.head));
    case Loaded(r, h) => ProducerLocal(cfg, s, s', p,
        if s.tail - h >= cfg.cap then Entering(r) else Claiming(r, h, s.tail));
    case Claiming(r, h, t) =>
      if s' == WithProducer(s, p, Entering(r)) {
        ProducerLocal(cfg, s, s', p, Entering(r));
      } else {
        ClaimPreserves(cfg, s, s', p);
      }
    case Writing(r, t, done) =>
      if done >= |r| {
        assert r[..done] == r && s.cells[t % cfg.cap][..done] == s.cells[t % cfg.cap];
        ProducerLocal(cfg, s, s', p, Storing(r, t));
      } else {
        WritePreserves(cfg, s, s', p);
      }
    case Storing(_, _) => PublishPreserves(cfg, s, s', p);
  }

  lemma ConsumerPreserves(cfg: Config, s: Ring, s': Ring, c: nat)
    requires Inv(cfg, s) && c < |s.consumers| && ConsumerStep(cfg, s, s', c)
    ensures Inv(cfg, s')
  {
    assert ConsumerOk(cfg, s, s.consumers[c]);
    hide Inv, Tickets;
    match s.consumers[c]
    case Away => ConsumerLocal(cfg, s, s', c, Starting);
    case Starting => ConsumerLocal(cfg, s, s', c, AtTail(s.head));
    case AtTail(h) => ConsumerLocal(cfg, s, s', c, if h == s.tail then ReportedEmpty else Checking(h));
    case Checking(h) =>
      if s.seqs[h % cfg.cap] == h + 1 && h == s.head { GenerationMeansPublished(cfg, s, h); }
      ConsumerLocal(cfg, s, s', c, if s.seqs[h % cfg.cap] != h + 1 then Starting else Reading(h, []));
    case Reading(h, acc) =>
      if |acc| >= cfg.words {
        ConsumerLocal(cfg, s, s', c, Taking(h, acc));
      } else {
        var more := acc + [s.cells[h % cfg.cap][|acc|]];
        if h == s.head { assert more == s.claimed[h][..|acc| + 1]; }
        ConsumerLocal(cfg, s, s', c, Reading(h, more));
      }
    case Taking(h, acc) =>
      if s' == WithConsumer(s, c, Starting) {
        ConsumerLocal(cfg, s, s', c, Starting);
      } else {
        TakePreserves(cfg, s, s', c);
      }
    case ReportedEmpty => ConsumerLocal(cfg, s, s', c, Away);
  }

  lemma GenerationMeansPublished(cfg: Config, s: Ring, t: nat)
    requires Inv(cfg, s) && s.head <= t < s.tail && s.seqs[t % cfg.cap] == t + 1
    ensures Published(cfg, s, t)
  {
    assert 0 <= t % cfg.cap < cfg.cap;
    assert Owned(s, t) || Published(cfg, s, t);
  }

  lemma NextPreserves(cfg: Config, s: Ring, s': Ring)
    requires Inv(cfg, s) && Next(cfg, s, s')
    ensures Inv(cfg, s')
  {
    assert cfg.Valid() && |s.cells| == |s.seqs| == cfg.cap;
    hide Inv, ProducerStep, ConsumerStep;
    if p: nat :| p < |s.producers| && ProducerStep(cfg, s, s', p) {
      ProducerPreserves(cfg, s, s', p);
    } else {
      var c: nat :| c < |s.consumers| && ConsumerStep(cfg, s, s', c);
      ConsumerPreserves(cfg, s, s', c);
    }
  }

  // ---- what the ring promises ---------------------------------------------------------------

  ghost predicate Run(cfg: Config, tr: seq<Ring>) {
    && |tr| > 0 && cfg.Valid() && Init(cfg, tr[0])
    && forall i :: 0 <= i < |tr| - 1 ==> |tr[i].cells| == |tr[i].seqs| == cfg.cap && Next(cfg, tr[i], tr[i + 1])
  }

  lemma {:induction false} RunInv(cfg: Config, tr: seq<Ring>, n: nat)
    requires Run(cfg, tr) && n < |tr|
    ensures Inv(cfg, tr[n])
  {
    hide Inv, Next, Init;
    if n == 0 {
      InitEstablishesInv(cfg, tr[0]);
    } else {
      RunInv(cfg, tr, n - 1);
      assert Next(cfg, tr[n - 1], tr[n - 1 + 1]);
      NextPreserves(cfg, tr[n - 1], tr[n]);
    }
  }

  /** On every interleaving the popped payloads are a prefix of the claimed ones in
      ticket order (nothing lost, repeated or torn), and never more than cap are outstanding. */
  lemma PoppedIsPrefixOfClaimed(cfg: Config, tr: seq<Ring>, n: nat)
    requires Run(cfg, tr) && n < |tr|
    ensures tr[n].popped <= tr[n].claimed && |tr[n].popped| == tr[n].head && |tr[n].claimed| == tr[n].tail
    ensures tr[n].tail - tr[n].head <= cfg.cap
  {
    RunInv(cfg, tr, n);
  }

  /** A cell is written only for a ticket whose predecessor in that cell has been popped. */
  lemma NoEarlyRewrite(cfg: Config, tr: seq<Ring>, n: nat, p: nat)
    requires Run(cfg, tr) && n < |tr| && p < |tr[n].producers| && tr[n].producers[p].Writing?
    ensures var t := tr[n].producers[p].t;
            t >= tr[n].head && (t >= cfg.cap ==> t - cfg.cap < |tr[n].popped|)
  {
    RunInv(cfg, tr, n);
    assert ProducerOk(cfg, tr[n], tr[n].producers[p]);
  }

  /** The queue a caller sees: claimed and not yet popped. */
  function Contents(s: Ring): seq<Payload>
    requires s.head <= |s.claimed|
  {
    s.claimed[s.head..]
  }

  /** A step of a bounded FIFO: it enqueues one payload when fewer than cap are queued,
      dequeues the first and hands exactly it out, or changes nothing. */
  predicate FifoStep(cap: nat, s: Ring, s': Ring)
    requires s.head <= |s.claimed| && s'.head <= |s'.claimed|
  {
    || (Contents(s') == Contents(s) && s'.popped == s.popped)
    || (|Contents(s)| < cap && s'.popped == s.popped && |Contents(s')| == |Contents(s)| + 1 &&
         Contents(s) <= Contents(s'))
    || (Contents(s) != [] && s'.popped == s.popped + [Contents(s)[0]] && Contents(s') == Contents(s)[1..])
  }

  lemma PushRefines(cfg: Config, s: Ring, s': Ring, p: nat)
    requires Inv(cfg, s) && p < |s.producers| && ProducerStep(cfg, s, s', p) && s'.head <= |s'.claimed| &&
               s.head <= |s.claimed|
    ensures FifoStep(cfg.cap, s, s')
  {
    assert cfg.Valid() && |s.cells| == |s.seqs| == cfg.cap;
    assert ProducerOk(cfg, s, s.producers[p]);
    hide Tickets;
  }

  lemma PopRefines(cfg: Config, s: Ring, s': Ring, c: nat)
    requires Inv(cfg, s) && c < |s.consumers| && ConsumerStep(cfg, s, s', c) && s'.head <= |s'.claimed| &&
               s.head <= |s.claimed|
    ensures FifoStep(cfg.cap, s, s')
  {
    assert cfg.Valid() && |s.cells| == |s.seqs| == cfg.cap;
    hide Tickets;
    if s'.head != s.head { TakePreserves(cfg, s, s', c); }
  }

  lemma HeadBound(cfg: Config, s: Ring)
    requires Inv(cfg, s)
    ensures s.head <= |s.claimed| && cfg.Valid() && |s.cells| == |s.seqs| == cfg.cap
  {
  }

  /** Every step of any thread is a step of a bounded FIFO. */
  lemma RefinesBoundedFifo(cfg: Config, s: Ring, s': Ring)
    requires Inv(cfg, s) && Next(cfg, s, s')
    ensures s.head <= |s.claimed| && s'.head <= |s'.claimed| && FifoStep(cfg.cap, s, s')
  {
    hide Inv, ProducerStep, ConsumerStep, FifoStep;
    NextPreserves(cfg, s, s');
    HeadBound(cfg, s);
    HeadBound(cfg, s');
    if c: nat :| c < |s.consumers| && ConsumerStep(cfg, s, s', c) {
      PopRefines(cfg, s, s', c);
    } else {
      var p: nat :| p < |s.producers| && ProducerStep(cfg, s, s', p);
      PushRefines(cfg, s, s', p);
    }
  }

  /** pop reports an empty queue only when it is empty. */
  lemma EmptyReportIsTrue(cfg: Config, s: Ring, s': Ring, c: nat)
    requires Inv(cfg, s) && c < |s.consumers| && ConsumerStep(cfg, s, s', c)
    requires s.consumers[c].AtTail? && s'.consumers[c].ReportedEmpty?
    ensures Contents(s) == []
  {
    assert ConsumerOk(cfg, s, s.consumers[c]);
  }
}
