/** Durable certified history: framing, certification and compare-and-append.

The certificate check is an arbitrary function of the frontier it extends and the bundle bytes;
`state` stands for every commitment a frontier carries besides its height.
*/
module CertifiedHistory {
  import ByteCodec
  import opened Wrappers

  const MAX_HEIGHT: nat := 0xFFFF_FFFF_FFFF_FFFF
  const MAX_BUNDLE_BYTES: nat := 6 * 64 * 1024 + 148
  const MAX_PAGE_RECORDS: nat := 16

  type Bytes = ByteCodec.Bytes

  datatype Frontier = Frontier(height: nat, state: nat)

  datatype Head = Head(scope: nat, frontier: Frontier, bundle: nat)

  datatype Record = Record(base: Head, head: Head, bytes: Bytes) {
    predicate Framed() {
      && base.scope == head.scope
      && head.frontier.height == base.frontier.height + 1
      && 0 < |bytes| <= MAX_BUNDLE_BYTES
    }
  }

  datatype Candidate = Candidate(base: Frontier, next: Frontier, id: nat, bytes: Bytes)

  /** One pinned network: its scope, its genesis, and what its validators certify. */
  datatype Verifier = Verifier(scope: nat, genesisState: nat,
                               check: (Frontier, Bytes) -> Option<(nat, nat)>)
  {
    function Genesis(): Head {
      Head(scope, Frontier(0, genesisState), 0)
    }

    function Prepare(base: Frontier, bytes: Bytes): Option<Candidate> {
      if base.height >= MAX_HEIGHT then None
      else match check(base, bytes)
           case None => None
           case Some((state, id)) => Some(Candidate(base, Frontier(base.height + 1, state), id, bytes))
    }

    /** The record's claim is exactly what its bundle certifies on top of its base. */
    predicate Certifies(r: Record) {
      && r.Framed()
      && var candidate := Prepare(r.base.frontier, r.bytes);
         candidate.Some? && r.head == Head(r.base.scope, candidate.value.next, candidate.value.id)
    }
  }

  /** The record a session publishes for a prepared candidate. */
  function RecordFor(head: Head, candidate: Candidate): Record {
    Record(head, Head(head.scope, candidate.next, candidate.id), candidate.bytes)
  }

  // ---------------------------------------------------------------------------------------
  // Chains

  /** The head after the first `h` records of a chain that starts at `from`. */
  function HeadAt(from: Head, chain: seq<Record>, h: nat): Head
    requires h <= |chain|
  {
    if h == 0 then from else chain[h - 1].head
  }

  predicate Linked(v: Verifier, from: Head, chain: seq<Record>, i: nat)
    requires i < |chain|
  {
    chain[i].base == HeadAt(from, chain, i) && v.Certifies(chain[i])
  }

  predicate Certified(v: Verifier, from: Head, chain: seq<Record>) {
    forall i {:trigger Linked(v, from, chain, i)} | 0 <= i < |chain| :: Linked(v, from, chain, i)
  }

  lemma {:induction false} HeightsCount(v: Verifier, from: Head, chain: seq<Record>, h: nat)
    requires Certified(v, from, chain) && h <= |chain|
    ensures HeadAt(from, chain, h).frontier.height == from.frontier.height + h
    ensures HeadAt(from, chain, h).scope == from.scope
  {
    if h > 0 {
      HeightsCount(v, from, chain, h - 1);
      assert Linked(v, from, chain, h - 1);
    }
  }

  lemma CertifiedGrows(v: Verifier, from: Head, chain: seq<Record>, r: Record)
    requires Certified(v, from, chain) && v.Certifies(r) && r.base == HeadAt(from, chain, |chain|)
    ensures Certified(v, from, chain + [r])
    ensures HeadAt(from, chain + [r], |chain| + 1) == r.head
  {
    var longer := chain + [r];
    forall i | 0 <= i < |longer| ensures Linked(v, from, longer, i) {
      if i < |chain| {
        assert Linked(v, from, chain, i);
      }
    }
  }

  lemma CertifiedPrefix(v: Verifier, from: Head, chain: seq<Record>, n: nat)
    requires Certified(v, from, chain) && n <= |chain|
    ensures Certified(v, from, chain[..n])
    ensures HeadAt(from, chain[..n], n) == HeadAt(from, chain, n)
  {
    forall i | 0 <= i < n ensures Linked(v, from, chain[..n], i) {
      assert Linked(v, from, chain, i);
    }
  }

  /** The head lies on the durable chain, at its own height. */
  predicate OnChain(v: Verifier, chain: seq<Record>, head: Head) {
    head.frontier.height <= |chain| && head == HeadAt(v.Genesis(), chain, head.frontier.height)
  }

  // ---------------------------------------------------------------------------------------
  // Replay

  /** What a reader of saved history has verified: its client's frontier, and the head that is at. */
  datatype Position = Position(client: Frontier, head: Head)

  /** One saved record, checked against the client that is to commit it. */
  function Replayed(v: Verifier, at: Position, r: Record): Option<Position> {
    var candidate := v.Prepare(at.client, r.bytes);
    if r.base == at.head && candidate.Some?
       && r.head.frontier == candidate.value.next && r.head.bundle == candidate.value.id
    then Some(Position(candidate.value.next, r.head))
    else None
  }

  /** Records replayed in order up to the goal, and whether one of them was refused. */
  function ReplayedUpTo(v: Verifier, at: Position, records: seq<Record>, goal: nat): (Position, bool)
    decreases |records|
  {
    if records == [] || records[0].head.frontier.height > goal then (at, false)
    else match Replayed(v, at, records[0])
         case None => (at, true)
         case Some(next) => ReplayedUpTo(v, next, records[1..], goal)
  }

  lemma ReplayStep(v: Verifier, at: Position, records: seq<Record>, k: nat, goal: nat)
    requires k < |records|
    ensures ReplayedUpTo(v, at, records[k..], goal) ==
            if records[k].head.frontier.height > goal then (at, false)
            else match Replayed(v, at, records[k])
                 case None => (at, true)
                 case Some(next) => ReplayedUpTo(v, next, records[k + 1..], goal)
  {
    assert records[k..][1..] == records[k + 1..];
  }

  // ---------------------------------------------------------------------------------------
  // Compare-and-append

  /** The durable side of an append: one transaction compares the expected head with the stored
      one and writes the record and its head together. */
  function Publish(v: Verifier, chain: seq<Record>, expected: Head, r: Record): Option<seq<Record>> {
    if expected.scope == v.scope && r.head.scope == v.scope && r.base == expected
       && HeadAt(v.Genesis(), chain, |chain|) == expected
    then Some(chain + [r])
    else None
  }

  lemma PublishKeepsCertified(v: Verifier, chain: seq<Record>, expected: Head, r: Record)
    requires Certified(v, v.Genesis(), chain) && v.Certifies(r)
    requires Publish(v, chain, expected, r).Some?
    ensures Certified(v, v.Genesis(), chain + [r]) && OnChain(v, chain + [r], r.head)
  {
    CertifiedGrows(v, v.Genesis(), chain, r);
    HeightsCount(v, v.Genesis(), chain + [r], |chain| + 1);
  }

  // ---------------------------------------------------------------------------------------
  // Pages

  datatype Page = Page(head: Head, records: seq<Record>)

  /** What reading checks of each stored record before returning it; certification is not among it. */
  predicate RecordFramed(v: Verifier, page: Page, start: nat, k: nat)
    requires k < |page.records|
  {
    var r := page.records[k];
    && r.Framed()
    && r.head.scope == v.scope
    && r.head.frontier.height == start + k <= page.head.frontier.height
    && (k > 0 ==> page.records[k - 1].head == r.base)
    && (start + k == page.head.frontier.height ==> r.head == page.head)
  }

  predicate PageFramed(v: Verifier, page: Page, start: nat) {
    && page.head.scope == v.scope
    && |page.records| <= MAX_PAGE_RECORDS
    && forall k | 0 <= k < |page.records| :: RecordFramed(v, page, start, k)
  }

  /** The records of a framed page stand at consecutive heights from its start on, each in scope, within
      bounds, and behind the one before it; the last possible one is the head. */
  lemma FramedPageIsConsecutive(v: Verifier, page: Page, start: nat, k: nat)
    requires PageFramed(v, page, start) && k < |page.records| && start > 0
    ensures var r := page.records[k];
            && r.base.scope == r.head.scope == v.scope
            && r.base.frontier.height == start + k - 1 && r.head.frontier.height == start + k
            && 0 < |r.bytes| <= 6 * 64 * 1024 + 148
            && (k > 0 ==> r.base == page.records[k - 1].head)
            && (start + k == page.head.frontier.height ==> r.head == page.head)
    ensures |page.records| <= 16 && start - 1 + |page.records| <= page.head.frontier.height && page.head.scope == v.scope
  {
    assert RecordFramed(v, page, start, k);
    assert RecordFramed(v, page, start, |page.records| - 1);
  }

  /** The page an intact store returns: its head, and `n` records from height `start` on. */
  function ChainPage(v: Verifier, chain: seq<Record>, start: nat, n: nat): Page
    requires 1 <= start && start - 1 + n <= |chain|
  {
    Page(HeadAt(v.Genesis(), chain, |chain|), chain[start - 1..start - 1 + n])
  }

  lemma ChainPageFramed(v: Verifier, chain: seq<Record>, start: nat, n: nat)
    requires Certified(v, v.Genesis(), chain)
    requires 1 <= start && start - 1 + n <= |chain| && n <= MAX_PAGE_RECORDS
    ensures PageFramed(v, ChainPage(v, chain, start, n), start)
  {
    var page := ChainPage(v, chain, start, n);
    HeightsCount(v, v.Genesis(), chain, |chain|);
    forall k | 0 <= k < n ensures RecordFramed(v, page, start, k) {
      assert page.records[k] == chain[start - 1 + k];
      if k > 0 {
        assert page.records[k - 1] == chain[start - 2 + k];
      }
      assert Linked(v, v.Genesis(), chain, start - 1 + k);
      HeightsCount(v, v.Genesis(), chain, start + k);
    }
  }
}
