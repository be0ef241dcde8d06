/** Many Peiros dialogues that take their addresses from the same range. */
module PeirosDialogues {
  import opened PeirosNet
  import opened Options

  /** The address of a dialogue's peer, and the one it gave its client, while it has said hello. */
  datatype Held = Held(remote: nat, given: Option<nat>)

  predicate Room(used: set<nat>, num: nat) {
    FirstFree(used, num, 0) < num
  }

  /** What the HELO command makes of the dialogue when address is allocated; added: the interface took it. */
  function AfterHello(h: Held, address: nat, added: bool): Held {
    if added || h.given.Some? then h.(given := Some(address)) else h
  }

  class PeirosDialogue {
    const m_peiros: Peiros
    var m_remoteAddress: nat
    var m_address: nat
    var m_saidHello: bool

    ghost function View(): Held
      reads this
    {
      Held(m_remoteAddress, if m_saidHello then Some(m_address) else None)
    }

    constructor (peiros: Peiros)
      requires peiros.Valid() && Room(peiros.Used(), peiros.numAddresses)
      modifies peiros.usageMap
      ensures m_peiros == peiros && peiros.Valid()
      ensures var k := FirstFree(old(peiros.Used()), peiros.numAddresses, 0);
              peiros.Used() == old(peiros.Used()) + {k} && View() == Held(peiros.baseAddress + k, None)
    {
      m_peiros := peiros;
      m_saidHello := false;
      new;
      m_remoteAddress := peiros.AllocateAddress();
    }

    /** HELO for shellcode handling. */
    method Hello(added: bool) returns (keep: bool)
      requires m_peiros.Valid() && Room(m_peiros.Used(), m_peiros.numAddresses)
      modifies this, m_peiros.usageMap
      ensures m_peiros.Valid() && keep == added
      ensures var k := FirstFree(old(m_peiros.Used()), m_peiros.numAddresses, 0);
              && m_peiros.Used() == old(m_peiros.Used()) + {k}
              && View() == AfterHello(old(View()), m_peiros.baseAddress + k, added)
    {
      m_address := m_peiros.AllocateAddress();
      if !added {
        return false;
      }
      m_saidHello := true;
      return true;
    }

    /** BYE; the dialogue is dropped in either case. */
    method Bye() returns (keep: bool)
      requires m_peiros.Valid()
      requires m_saidHello ==> m_peiros.baseAddress <= m_address < m_peiros.baseAddress + m_peiros.numAddresses
      modifies this, m_peiros.usageMap
      ensures m_peiros.Valid() && !keep && View() == old(View()).(given := None)
      ensures m_peiros.Used()
           == old(m_peiros.Used()) - (if old(m_saidHello) then {m_address - m_peiros.baseAddress} else {})
    {
      if m_saidHello {
        Offset(m_peiros.prefixLength, m_peiros.baseAddress, m_address);
        m_peiros.FreeAddress(m_address);
        m_saidHello := false;
      }
      return false;
    }

    /** The destructor. */
    method Destroy()
      requires m_peiros.Valid()
      requires m_peiros.baseAddress <= m_remoteAddress < m_peiros.baseAddress + m_peiros.numAddresses
      modifies m_peiros.usageMap
      ensures m_peiros.Valid()
      ensures m_peiros.Used() == old(m_peiros.Used()) - {m_remoteAddress - m_peiros.baseAddress}
    {
      Offset(m_peiros.prefixLength, m_peiros.baseAddress, m_remoteAddress);
      m_peiros.FreeAddress(m_remoteAddress);
    }
  }

  /** Within the range the 32-bit difference is the offset. */
  lemma Offset(prefix: nat, base: nat, address: nat)
    requires 16 <= prefix <= 28 && base < 0x1_0000_0000 && base % Pow2(32 - prefix) == 0
    requires base <= address < base + Pow2(32 - prefix)
    ensures address < 0x1_0000_0000 && (address - base) % 0x1_0000_0000 == address - base
  {
    Pow2Mono(32 - prefix, 32);
    Pow2Values();
    RangeAddress(prefix, base, address - base, 0x1_0000_0000 - Pow2(32 - prefix));
  }

  // ---------------------------------------------------------------- runs

  /** The offsets marked as used, and the dialogues alive. base and num are those of the configured range. */
  datatype World = World(used: set<nat>, dialogues: map<nat, Held>)

  datatype Event = Create(id: nat) | Hello(id: nat, added: bool) | Bye(id: nat) | Destroy(id: nat)

  /** Allocation needs a usable address that is free. */
  predicate Enabled(w: World, num: nat, e: Event) {
    match e
    case Create(id) => id !in w.dialogues && Room(w.used, num)
    case Hello(id, _) => id in w.dialogues && Room(w.used, num)
    case Bye(id) => id in w.dialogues
    case Destroy(id) => id in w.dialogues
  }

  function Freed(used: set<nat>, base: nat, address: nat): set<nat> {
    used - {(address - base) % 0x1_0000_0000}
  }

  function Step(w: World, base: nat, num: nat, e: Event): World
    requires Enabled(w, num, e)
  {
    var k := FirstFree(w.used, num, 0);
    match e
    case Create(id) => World(w.used + {k}, w.dialogues[id := Held(base + k, None)])
    case Hello(id, added) => World(w.used + {k}, w.dialogues[id := AfterHello(w.dialogues[id], base + k, added)])
    case Bye(id) =>
      var h := w.dialogues[id];
      World(if h.given.Some? then Freed(w.used, base, h.given.value) else w.used,
            w.dialogues[id := h.(given := None)])
    case Destroy(id) => World(Freed(w.used, base, w.dialogues[id].remote), w.dialogues - {id})
  }

  /** The two places of a dialogue where an address may be held. */
  datatype Place = Remote(id: nat) | Given(id: nat)

  function AddressAt(dialogues: map<nat, Held>, p: Place): Option<nat> {
    if p.id !in dialogues then None
    else if p.Remote? then Some(dialogues[p.id].remote)
    else dialogues[p.id].given
  }

  /** An address that is held lies in the range and is marked. */
  predicate PlaceOk(w: World, base: nat, num: nat, p: Place) {
    AddressAt(w.dialogues, p).Some? ==>
      var a := AddressAt(w.dialogues, p).value;
      base <= a < base + num && a - base in w.used && Usable(a - base)
  }

  predicate Apart(w: World, p: Place, q: Place) {
    AddressAt(w.dialogues, p).Some? && AddressAt(w.dialogues, p) == AddressAt(w.dialogues, q) ==> p == q
  }

  ghost predicate Inv(w: World, base: nat, num: nat) {
    && (forall p :: PlaceOk(w, base, num, p))
    && (forall p, q :: Apart(w, p, q))
    && (forall k :: k in w.used ==> k < num)
  }

  predicate IsRange(base: nat, num: nat) {
    base + num <= 0x1_0000_0000 && num <= 0x1_0000
  }

  /** A new address in one place; what else changes is that places of its dialogue may be emptied. */
  lemma Allocates(w: World, base: nat, num: nat, w': World, p: Place)
    requires Inv(w, base, num) && Room(w.used, num)
    requires var k := FirstFree(w.used, num, 0);
             var a := AddressAt(w'.dialogues, p);
             w'.used == w.used + {k} && (a == None || a == Some(base + k) || a == AddressAt(w.dialogues, p))
    requires forall q :: q != p ==> AddressAt(w'.dialogues, q) in {None, AddressAt(w.dialogues, q)}
    ensures Inv(w', base, num)
  {
    var k := FirstFree(w.used, num, 0);
    forall q ensures PlaceOk(w', base, num, q) {
      assert PlaceOk(w, base, num, q);
    }
    forall q, q' ensures Apart(w', q, q') {
      assert Apart(w, q, q') && PlaceOk(w, base, num, q) && PlaceOk(w, base, num, q');
    }
  }

  /** The address of one place is freed with the place. */
  lemma Releases(w: World, base: nat, num: nat, w': World, p: Place)
    requires Inv(w, base, num) && IsRange(base, num) && AddressAt(w.dialogues, p).Some?
    requires w'.used == Freed(w.used, base, AddressAt(w.dialogues, p).value)
    requires AddressAt(w'.dialogues, p) == None
    requires forall q :: AddressAt(w'.dialogues, q) in {None, AddressAt(w.dialogues, q)}
    ensures Inv(w', base, num)
  {
    assert PlaceOk(w, base, num, p);
    forall q ensures PlaceOk(w', base, num, q) {
      assert PlaceOk(w, base, num, q) && Apart(w, p, q);
    }
    forall q, q' ensures Apart(w', q, q') {
      assert Apart(w, q, q');
    }
  }

  lemma StepInv(w: World, base: nat, num: nat, e: Event)
    requires Inv(w, base, num) && IsRange(base, num) && Enabled(w, num, e)
    ensures Inv(Step(w, base, num, e), base, num)
  {
    var w' := Step(w, base, num, e);
    match e
    case Create(id) => Allocates(w, base, num, w', Remote(id));
    case Hello(id, _) => Allocates(w, base, num, w', Given(id));
    case Bye(id) =>
      if w.dialogues[id].given.Some? {
        Releases(w, base, num, w', Given(id));
      } else {
        assert w'.dialogues == w.dialogues;
      }
    case Destroy(id) => Releases(w, base, num, w', Remote(id));
  }

  predicate AllEnabled(w: World, base: nat, num: nat, events: seq<Event>)
    decreases |events|
  {
    events == [] || (Enabled(w, num, events[0]) && AllEnabled(Step(w, base, num, events[0]), base, num, events[1..]))
  }

  function Run(w: World, base: nat, num: nat, events: seq<Event>): World
    requires AllEnabled(w, base, num, events)
    decreases |events|
  {
    if events == [] then w else Run(Step(w, base, num, events[0]), base, num, events[1..])
  }

  const Start := World({}, map[])

  lemma {:induction false} RunInv(w: World, base: nat, num: nat, events: seq<Event>)
    requires Inv(w, base, num) && IsRange(base, num) && AllEnabled(w, base, num, events)
    ensures Inv(Run(w, base, num, events), base, num)
    decreases |events|
  {
    if events != [] {
      StepInv(w, base, num, events[0]);
      RunInv(Step(w, base, num, events[0]), base, num, events[1..]);
    }
  }

  /** After any run the addresses that dialogues hold are marked as used and pairwise distinct. */
  lemma HeldApart(base: nat, num: nat, events: seq<Event>, p: Place, q: Place)
    requires IsRange(base, num) && AllEnabled(Start, base, num, events)
    ensures var w := Run(Start, base, num, events);
            && (AddressAt(w.dialogues, p).Some? ==> AddressAt(w.dialogues, p).value - base in w.used)
            && (AddressAt(w.dialogues, p).Some? && p != q ==> AddressAt(w.dialogues, p) != AddressAt(w.dialogues, q))
  {
    RunInv(Start, base, num, events);
    var w := Run(Start, base, num, events);
    assert PlaceOk(w, base, num, p) && Apart(w, p, q);
  }

  /** What one dialogue does leaves the addresses of the others held and marked. */
  lemma OthersKeep(base: nat, num: nat, events: seq<Event>, e: Event, p: Place)
    requires IsRange(base, num) && AllEnabled(Start, base, num, events)
    requires Enabled(Run(Start, base, num, events), num, e)
    ensures var w := Run(Start, base, num, events);
            var w' := Step(w, base, num, e);
            p.id != e.id && AddressAt(w.dialogues, p).Some? ==>
              && AddressAt(w'.dialogues, p) == AddressAt(w.dialogues, p)
              && AddressAt(w.dialogues, p).value - base in w'.used
  {
    RunInv(Start, base, num, events);
    var w := Run(Start, base, num, events);
    StepInv(w, base, num, e);
    assert PlaceOk(Step(w, base, num, e), base, num, p);
  }

  // ---------------------------------------------------------------- what is never freed

  ghost predicate Occupied(w: World, base: nat, k: nat) {
    exists p :: AddressAt(w.dialogues, p) == Some(base + k)
  }

  /** Marked, but held by no dialogue. */
  ghost predicate Lost(w: World, base: nat, k: nat) {
    k in w.used && !Occupied(w, base, k)
  }

  /**
   * What an event loses: the address that a second HELO replaces, the one that the interface does not take in a first
   * HELO, and the one that a dialogue without BYE gave its client.
   */
  ghost predicate Loses(w: World, base: nat, num: nat, e: Event, k: nat)
    requires Enabled(w, num, e)
  {
    match e
    case Hello(id, added) =>
      if w.dialogues[id].given.Some? then w.dialogues[id].given == Some(base + k)
      else !added && k == FirstFree(w.used, num, 0)
    case Destroy(id) => w.dialogues[id].given == Some(base + k)
    case _ => false
  }

  /** Where the addresses are after an event. */
  lemma PlacesAfter(w: World, base: nat, num: nat, e: Event, p: Place)
    requires Enabled(w, num, e)
    ensures AddressAt(Step(w, base, num, e).dialogues, p)
         == if p.id != e.id then AddressAt(w.dialogues, p)
            else if e.Destroy? then None
            else if e.Create? then (if p.Remote? then Some(base + FirstFree(w.used, num, 0)) else None)
            else if p.Remote? then AddressAt(w.dialogues, p)
            else if e.Bye? then None
            else if e.added || w.dialogues[e.id].given.Some? then Some(base + FirstFree(w.used, num, 0))
            else None
  {
  }

  /** An address is lost after an event if and only if it was lost before or the event loses it. */
  lemma LostIff(w: World, base: nat, num: nat, e: Event, k: nat)
    requires Inv(w, base, num) && IsRange(base, num) && Enabled(w, num, e)
    ensures Lost(Step(w, base, num, e), base, k) <==> Lost(w, base, k) || Loses(w, base, num, e, k)
  {
    if Occupied(w, base, k) {
      var p :| AddressAt(w.dialogues, p) == Some(base + k);
      OccupiedBefore(w, base, num, e, k, p);
    } else {
      FreeBefore(w, base, num, e, k);
    }
  }

  lemma OccupiedBefore(w: World, base: nat, num: nat, e: Event, k: nat, p: Place)
    requires Inv(w, base, num) && IsRange(base, num) && Enabled(w, num, e)
    requires AddressAt(w.dialogues, p) == Some(base + k)
    ensures Lost(Step(w, base, num, e), base, k) <==> Loses(w, base, num, e, k)
  {
    var w' := Step(w, base, num, e);
    assert PlaceOk(w, base, num, p) && PlaceOk(w, base, num, Given(e.id)) && PlaceOk(w, base, num, Remote(e.id));
    PlacesAfter(w, base, num, e, p);
    OnlyPlace(w, base, num, e, k, p);
    assert Apart(w, p, Given(e.id)) && Apart(w, p, Remote(e.id));
  }

  /** An address that was held stays where it was, or is held nowhere. */
  lemma OnlyPlace(w: World, base: nat, num: nat, e: Event, k: nat, p: Place)
    requires Inv(w, base, num) && Enabled(w, num, e) && AddressAt(w.dialogues, p) == Some(base + k)
    ensures forall q :: AddressAt(Step(w, base, num, e).dialogues, q) == Some(base + k) ==> q == p
  {
    var w' := Step(w, base, num, e);
    assert PlaceOk(w, base, num, p);
    forall q ensures AddressAt(w'.dialogues, q) == Some(base + k) ==> q == p {
      PlacesAfter(w, base, num, e, q);
      assert Apart(w, p, q);
    }
  }

  lemma FreeBefore(w: World, base: nat, num: nat, e: Event, k: nat)
    requires Inv(w, base, num) && IsRange(base, num) && Enabled(w, num, e)
    requires !Occupied(w, base, k)
    ensures Lost(Step(w, base, num, e), base, k) <==> Lost(w, base, k) || Loses(w, base, num, e, k)
  {
    var w', first := Step(w, base, num, e), FirstFree(w.used, num, 0);
    var at := if e.Create? then Remote(e.id) else Given(e.id);
    PlacesAfter(w, base, num, e, at);
    assert PlaceOk(w, base, num, Given(e.id)) && PlaceOk(w, base, num, Remote(e.id));
    forall q ensures AddressAt(w'.dialogues, q) == Some(base + k) ==> q == at && k == first {
      PlacesAfter(w, base, num, e, q);
    }
  }

  /** A first HELO that the interface takes, a BYE, or an end after it. */
  predicate LosesNone(w: World, num: nat, e: Event)
    requires Enabled(w, num, e)
  {
    match e
    case Hello(id, added) => added && w.dialogues[id].given.None?
    case Destroy(id) => w.dialogues[id].given.None?
    case _ => true
  }

  predicate NeverLoses(w: World, base: nat, num: nat, events: seq<Event>)
    requires AllEnabled(w, base, num, events)
    decreases |events|
  {
    events == [] || (LosesNone(w, num, events[0]) && NeverLoses(Step(w, base, num, events[0]), base, num, events[1..]))
  }

  lemma LosesSome(w: World, base: nat, num: nat, e: Event)
    requires Inv(w, base, num) && Enabled(w, num, e)
    ensures LosesNone(w, num, e) <==> forall k: nat :: !Loses(w, base, num, e, k)
  {
    if !LosesNone(w, num, e) {
      assert PlaceOk(w, base, num, Given(e.id));
      var given := w.dialogues[e.id].given;
      var k := if given.Some? then given.value - base else FirstFree(w.used, num, 0);
      assert Loses(w, base, num, e, k);
    }
  }

  /** What is lost stays lost. */
  lemma {:induction false} StaysLost(w: World, base: nat, num: nat, events: seq<Event>, k: nat)
    requires Inv(w, base, num) && IsRange(base, num) && AllEnabled(w, base, num, events) && Lost(w, base, k)
    ensures Lost(Run(w, base, num, events), base, k)
    decreases |events|
  {
    if events != [] {
      LostIff(w, base, num, events[0], k);
      StepInv(w, base, num, events[0]);
      StaysLost(Step(w, base, num, events[0]), base, num, events[1..], k);
    }
  }

  /** Nothing is lost after a run if and only if no event of it lost anything. */
  lemma {:induction false} NothingLost(w: World, base: nat, num: nat, events: seq<Event>)
    requires Inv(w, base, num) && IsRange(base, num) && AllEnabled(w, base, num, events)
    requires forall k: nat :: !Lost(w, base, k)
    ensures NeverLoses(w, base, num, events) <==> forall k: nat :: !Lost(Run(w, base, num, events), base, k)
    decreases |events|
  {
    if events != [] {
      var e, w' := events[0], Step(w, base, num, events[0]);
      StepInv(w, base, num, e);
      LosesSome(w, base, num, e);
      forall k: nat ensures Lost(w', base, k) <==> Loses(w, base, num, e, k) {
        LostIff(w, base, num, e, k);
      }
      assert Run(w, base, num, events) == Run(w', base, num, events[1..]);
      if LosesNone(w, num, e) {
        NothingLost(w', base, num, events[1..]);
      } else {
        var k: nat :| Loses(w, base, num, e, k);
        StaysLost(w', base, num, events[1..], k);
      }
    }
  }

  /** A run that ends without dialogues leaves the range free if and only if none of its events lost an address. */
  lemma AllFreeAgain(base: nat, num: nat, events: seq<Event>)
    requires IsRange(base, num) && AllEnabled(Start, base, num, events)
    requires Run(Start, base, num, events).dialogues == map[]
    ensures Run(Start, base, num, events).used == {} <==> NeverLoses(Start, base, num, events)
  {
    NothingLost(Start, base, num, events);
    var w := Run(Start, base, num, events);
    forall k: nat ensures Lost(w, base, k) <==> k in w.used {
    }
  }

  /** One event before a run. */
  lemma EventBefore(w: World, w': World, e: Event, events: seq<Event>, last: World, base: nat, num: nat)
    requires Enabled(w, num, e) && Step(w, base, num, e) == w'
    requires AllEnabled(w', base, num, events) && Run(w', base, num, events) == last
    ensures AllEnabled(w, base, num, [e] + events) && Run(w, base, num, [e] + events) == last
  {
    assert ([e] + events)[1..] == events;
  }

  lemma FirstOffsets()
    ensures FirstFree({}, 16, 0) == 1 && FirstFree({1}, 16, 0) == 2 && FirstFree({1, 2}, 16, 0) == 3
  {
    assert FirstFree({1, 2}, 16, 2) == 3;
  }

  /** A dialogue that says HELO twice leaves an address marked that nobody holds. */
  lemma LosesExample()
    ensures var events := [Create(0), Hello(0, true), Hello(0, true), Bye(0), Destroy(0)];
            AllEnabled(Start, 0, 16, events) && Run(Start, 0, 16, events) == World({2}, map[])
  {
    FirstOffsets();
    var w1 := World({1}, map[0 := Held(1, None)]);
    var w2 := World({1, 2}, map[0 := Held(1, Some(2))]);
    var w3 := World({1, 2, 3}, map[0 := Held(1, Some(3))]);
    var w4 := World({1, 2}, map[0 := Held(1, None)]);
    var w5 := World({2}, map[]);
    EventBefore(w4, w5, Destroy(0), [], w5, 0, 16);
    EventBefore(w3, w4, Bye(0), [Destroy(0)], w5, 0, 16);
    EventBefore(w2, w3, Hello(0, true), [Bye(0), Destroy(0)], w5, 0, 16);
    EventBefore(w1, w2, Hello(0, true), [Hello(0, true), Bye(0), Destroy(0)], w5, 0, 16);
    EventBefore(Start, w1, Create(0), [Hello(0, true), Hello(0, true), Bye(0), Destroy(0)], w5, 0, 16);
    assert [Create(0)] + [Hello(0, true), Hello(0, true), Bye(0), Destroy(0)]
        == [Create(0), Hello(0, true), Hello(0, true), Bye(0), Destroy(0)];
  }
}
