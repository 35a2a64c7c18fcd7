/** The table of registered devices: claims, what each registration holds, and in
    which order it is given back. Every method below runs under the registry lock
    from its first line to its last, so each is one atomic step of any thread. */
module Registry {
  import opened Entries

  const MAX_DEVICES: nat := 8

  /** What fstat() says of a descriptor; (0, 0) stands for unknown. */
  datatype Identity = Identity(dev: nat, ino: nat)

  const UNKNOWN := Identity(0, 0)

  datatype Slot = Slot(
    inUse: bool,
    token: int,
    refs: int,
    cancelled: bool,
    deviceGone: bool,
    identity: Identity,
    kernelDetached: bool,
    maxTransferBytes: nat)

  /** What memset leaves. */
  const EMPTY := Slot(false, 0, 0, false, false, UNKNOWN, false, 0)

  /** What a registration acquires, in order of acquisition. The labels of its
      unwind ladder count how many of them are held. */
  datatype Resource = IoLock | CssMutex | CssCondition | Context | Handle | Interface

  const LADDER: seq<Resource> := [IoLock, CssMutex, CssCondition, Context, Handle, Interface]

  const ERR_SLOT: nat := 0
  const ERR_IO_MUTEX: nat := 1
  const ERR_CSS_MUTEX: nat := 2
  const ERR_CSS_COND: nat := 3
  const ERR_CTX: nat := 4
  const ERR_HANDLE: nat := 5
  const ERR_IFACE: nat := 6
  const PUBLISHED: nat := 7

  datatype Optical = Yes | No | Gone | NoAnswer

  /** What the kernel sees: its driver taken off a device, or offered it back. */
  datatype KernelEvent = Detached(token: int) | OfferedBack(token: int)

  /** Claims as their holders see them: what each acquire came to, and each release. */
  datatype Claim = Acquired(token: int) | Denied(token: int) | Released(token: int) | Ignored(token: int)

  function Net(history: seq<Claim>, token: int): int {
    if history == [] then 0
    else
      var last := history[|history| - 1];
      Net(history[..|history| - 1], token)
        + (if last == Acquired(token) then 1 else if last == Released(token) then -1 else 0)
  }

  lemma NetOfOneMore(history: seq<Claim>, c: Claim)
    ensures forall t ::
      (Net(history + [c], t) == Net(history, t) + if c == Acquired(t) then 1 else if c == Released(t) then -1 else 0)
  {
    assert (history + [c])[..|history|] == history;
  }

  function RungOf(r: Resource): (n: nat)
    ensures n < |LADDER| && LADDER[n] == r
  {
    match r
    case IoLock => 0
    case CssMutex => 1
    case CssCondition => 2
    case Context => 3
    case Handle => 4
    case Interface => 5
  }

  lemma WholeLadder()
    ensures LADDER[..0] == [] && LADDER[..|LADDER|] == LADDER
  {
  }

  lemma NextRung(r: Resource)
    ensures LADDER[..RungOf(r)] + [r] == LADDER[..RungOf(r) + 1]
    ensures LADDER[..RungOf(r) + 1][..RungOf(r)] == LADDER[..RungOf(r)]
  {
    assert LADDER[..RungOf(r) + 1] == LADDER[..RungOf(r)] + [LADDER[RungOf(r)]];
  }

  /** A driver is offered back only right after it was taken off, once. */
  ghost predicate Returned(kernel: seq<KernelEvent>) {
    forall i | 0 <= i < |kernel| && kernel[i].OfferedBack? ::
      i > 0 && kernel[i - 1] == Detached(kernel[i].token)
  }

  /** Does the descriptor still name the device it was registered on? An identity
      that could not be recorded is trusted. */
  predicate StillOurs(s: Slot, fds: map<int, Identity>, fd: int) {
    s.identity == UNKNOWN || (fd in fds && fds[fd] == s.identity)
  }

  /** A slot between two critical sections: free, zeroed and holding nothing, or
      published, claimed, not cancelled and holding the whole ladder. */
  ghost predicate Settled(s: Slot, held: seq<Resource>, history: seq<Claim>) {
    if s.inUse then
      && s.refs > 0 && s.refs == Net(history, s.token)
      && !s.cancelled && held == LADDER
      && MIN_BYTES_PER_TRANSFER <= s.maxTransferBytes <= MAX_BYTES_PER_TRANSFER
    else
      s == EMPTY && held == []
  }

  predicate In(slots: seq<Slot>, token: int) {
    exists i :: 0 <= i < |slots| && slots[i].inUse && slots[i].token == token
  }

  /** The first published entry of a token, or -1. */
  function IndexOf(slots: seq<Slot>, token: int): (i: int)
    ensures i == -1 <==> !In(slots, token)
    ensures -1 <= i < |slots| && (i >= 0 ==> slots[i].inUse && slots[i].token == token)
  {
    if slots == [] then -1
    else
      var n := |slots| - 1;
      var i := IndexOf(slots[..n], token);
      assert In(slots, token) <==> In(slots[..n], token) || (slots[n].inUse && slots[n].token == token) by {
        if k :| 0 <= k < |slots| && slots[k].inUse && slots[k].token == token {
          assert k < n ==> slots[..n][k] == slots[k];
        }
        if k :| 0 <= k < n && slots[..n][k].inUse && slots[..n][k].token == token {
          assert slots[k] == slots[..n][k];
        }
      }
      if i >= 0 then i else if slots[n].inUse && slots[n].token == token then n else -1
  }

  lemma {:induction false} FirstIndex(slots: seq<Slot>, i: nat, token: int)
    requires i < |slots| && IndexOf(slots[..i], token) == -1
    ensures IndexOf(slots[..i + 1], token) == (if slots[i].inUse && slots[i].token == token then i else -1)
    ensures slots[i].inUse && slots[i].token == token ==> IndexOf(slots, token) == i
    decreases |slots|
  {
    assert slots[..i + 1][..i] == slots[..i];
    if i < |slots| - 1 {
      assert slots[..|slots| - 1][..i] == slots[..i];
      FirstIndex(slots[..|slots| - 1], i, token);
    } else {
      assert slots[..i + 1] == slots;
    }
  }

  /** What a registration puts into its slot. */
  function Registered(fd: int, refs: int, fds: map<int, Identity>, kernelDetached: bool): Slot {
    Slot(true, fd, refs, false, false, if fd in fds then fds[fd] else UNKNOWN, kernelDetached, MAX_BYTES_PER_TRANSFER)
  }

  /** The table and its ledger against the history of claims. */
  ghost predicate Consistent(slots: seq<Slot>, held: seq<seq<Resource>>, history: seq<Claim>) {
    && |slots| == |held| == MAX_DEVICES
    && (forall i | 0 <= i < MAX_DEVICES :: Settled(slots[i], held[i], history))
    && (forall i, j | 0 <= i < j < MAX_DEVICES && slots[i].inUse && slots[j].inUse :: slots[i].token != slots[j].token)
    && (forall t :: !In(slots, t) ==> Net(history, t) == 0)
  }

  lemma FreeIsEmpty(slots: seq<Slot>, held: seq<seq<Resource>>, history: seq<Claim>, i: nat)
    requires Consistent(slots, held, history) && i < MAX_DEVICES && !slots[i].inUse
    ensures slots[i] == EMPTY && held[i] == []
  {
  }

  lemma OtherTokensStay(before: seq<Slot>, after: seq<Slot>, k: nat, token: int)
    requires k < |before| == |after| && after == before[k := after[k]]
    requires before[k].inUse ==> before[k].token == token
    requires after[k].inUse ==> after[k].token == token
    ensures forall t | t != token :: In(after, t) <==> In(before, t)
  {
    forall t | t != token
      ensures In(after, t) <==> In(before, t)
    {
      if i :| 0 <= i < |after| && after[i].inUse && after[i].token == t {
        assert before[i] == after[i];
      }
      if i :| 0 <= i < |before| && before[i].inUse && before[i].token == t {
        assert before[i] == after[i];
      }
    }
  }

  /** A call that changed nothing. */
  lemma NoClaim(slots: seq<Slot>, held: seq<seq<Resource>>, history: seq<Claim>, c: Claim)
    requires Consistent(slots, held, history) && (c.Denied? || c.Ignored?)
    ensures Consistent(slots, held, history + [c])
  {
    NetOfOneMore(history, c);
  }

  lemma OneMoreClaim(slots: seq<Slot>, held: seq<seq<Resource>>, history: seq<Claim>, k: nat)
    requires Consistent(slots, held, history) && k < MAX_DEVICES && slots[k].inUse
    ensures Consistent(slots[k := slots[k].(refs := slots[k].refs + 1)], held, history + [Acquired(slots[k].token)])
  {
    hide Net;
    NetOfOneMore(history, Acquired(slots[k].token));
    OtherTokensStay(slots, slots[k := slots[k].(refs := slots[k].refs + 1)], k, slots[k].token);
  }

  lemma FirstClaim(slots: seq<Slot>, held: seq<seq<Resource>>, history: seq<Claim>, k: nat, s: Slot)
    requires Consistent(slots, held, history) && k < MAX_DEVICES && !slots[k].inUse && !In(slots, s.token)
    requires s.inUse && s.refs == 1 && !s.cancelled && s.maxTransferBytes == MAX_BYTES_PER_TRANSFER
    ensures Consistent(slots[k := s], held[k := LADDER], history + [Acquired(s.token)])
  {
    NetOfOneMore(history, Acquired(s.token));
    OtherTokensStay(slots, slots[k := s], k, s.token);
  }

  lemma OneClaimLess(slots: seq<Slot>, held: seq<seq<Resource>>, history: seq<Claim>, k: nat)
    requires Consistent(slots, held, history) && k < MAX_DEVICES && slots[k].inUse && slots[k].refs > 1
    ensures Consistent(slots[k := slots[k].(refs := slots[k].refs - 1)], held, history + [Released(slots[k].token)])
  {
    hide Net;
    NetOfOneMore(history, Released(slots[k].token));
    OtherTokensStay(slots, slots[k := slots[k].(refs := slots[k].refs - 1)], k, slots[k].token);
  }

  lemma LastClaim(slots: seq<Slot>, held: seq<seq<Resource>>, history: seq<Claim>, k: nat)
    requires Consistent(slots, held, history) && k < MAX_DEVICES && slots[k].inUse && slots[k].refs == 1
    ensures Consistent(slots[k := EMPTY], held[k := []], history + [Released(slots[k].token)])
  {
    hide Net, In;
    NetOfOneMore(history, Released(slots[k].token));
    OtherTokensStay(slots, slots[k := EMPTY], k, slots[k].token);
    SoleEntryLeaves(slots, k);
  }

  lemma SoleEntryLeaves(slots: seq<Slot>, k: nat)
    requires k < |slots| && slots[k].inUse
    requires forall i, j | 0 <= i < j < |slots| && slots[i].inUse && slots[j].inUse :: slots[i].token != slots[j].token
    ensures !In(slots[k := EMPTY], slots[k].token)
  {
  }

  /** A device lost and a cap lowered, on a published entry. */
  function Disturbed(slots: seq<Slot>, i: nat, gone: bool, cap: nat): seq<Slot> {
    if i < |slots| && slots[i].inUse then
      var s := slots[i];
      slots[i := s.(deviceGone := s.deviceGone || gone,
                    maxTransferBytes := if MIN_BYTES_PER_TRANSFER <= cap < s.maxTransferBytes then cap
                                        else s.maxTransferBytes)]
    else slots
  }

  lemma DisturbedStays(slots: seq<Slot>, held: seq<seq<Resource>>, history: seq<Claim>, i: nat, gone: bool, cap: nat)
    requires Consistent(slots, held, history)
    ensures Consistent(Disturbed(slots, i, gone, cap), held, history)
  {
    hide Net;
    if i < |slots| && slots[i].inUse {
      OtherTokensStay(slots, Disturbed(slots, i, gone, cap), i, slots[i].token);
    }
  }

  /** The table, its ledger and the descriptors, between two critical sections. */
  datatype Snap = Snap(slots: seq<Slot>, held: seq<seq<Resource>>, fds: map<int, Identity>, kernel: seq<KernelEvent>,
                       history: seq<Claim>, resets: nat)

  class Table {
    const slots: array<Slot>

    /** What the descriptors of the process name at present. */
    var fds: map<int, Identity>

    /** Per slot, what it holds, the latest last; and the condition attributes
        alive at present. */
    ghost var held: seq<seq<Resource>>
    ghost var attributes: nat

    ghost var kernel: seq<KernelEvent>
    ghost var history: seq<Claim>
    ghost var resets: nat

    ghost predicate Shaped()
      reads this
    {
      slots.Length == MAX_DEVICES == |held| && attributes == 0 && Returned(kernel)
    }

    ghost predicate Published(token: int)
      reads this, slots
    {
      In(slots[..], token)
    }

    /** Whenever the registry lock is free. */
    ghost predicate Valid()
      reads this, slots
    {
      Shaped() && Consistent(slots[..], held, history)
    }

    constructor ()
      ensures Valid() && fresh(slots) && history == [] && kernel == []
      ensures forall t :: !Published(t)
    {
      slots := new Slot[MAX_DEVICES](_ => EMPTY);
      fds := map[];
      held, attributes := seq(MAX_DEVICES, _ => []), 0;
      kernel, history, resets := [], [], 0;
    }

    /** What is to be seen of it between two critical sections. */
    ghost function Look(): Snap
      reads this, slots
    {
      Snap(slots[..], held, fds, kernel, history, resets)
    }

    /** Outside the lock: transactions lose devices and lower caps, descriptors
        are closed and used again. */
    method Elsewhere(i: nat, gone: bool, cap: nat, names: map<int, Identity>)
      requires Valid()
      modifies this`fds, slots
      ensures Valid() && fds == names
      ensures slots[..] == Disturbed(old(slots[..]), i, gone, cap)
    {
      fds := names;
      if i < MAX_DEVICES && slots[i].inUse {
        var lower := MIN_BYTES_PER_TRANSFER <= cap < slots[i].maxTransferBytes;
        slots[i] := slots[i].(deviceGone := slots[i].deviceGone || gone,
                              maxTransferBytes := if lower then cap else slots[i].maxTransferBytes);
      }
      DisturbedStays(old(slots[..]), held, history, i, gone, cap);
    }

    /** laser_lookup(): the published entry of a token. */
    method Lookup(token: int) returns (found: int)
      requires slots.Length == MAX_DEVICES
      ensures found == IndexOf(slots[..], token)
    {
      var i := 0;
      assert slots[..][..0] == [];
      while i < MAX_DEVICES
        invariant 0 <= i <= MAX_DEVICES
        invariant IndexOf(slots[..][..i], token) == -1
      {
        FirstIndex(slots[..], i, token);
        if slots[i].inUse && slots[i].token == token {
          return i;
        }
        i := i + 1;
      }
      assert slots[..][..MAX_DEVICES] == slots[..];
      found := -1;
    }

    /** reserve_slot(): the first free slot, zeroed but for its token; none if the
        token is registered or the table full. */
    method ReserveSlot(fd: int) returns (slot: int)
      requires Valid()
      modifies slots
      ensures slot == -1 <==> old(Published(fd)) || (forall i | 0 <= i < MAX_DEVICES :: old(slots[i].inUse))
      ensures slot == -1 ==> slots[..] == old(slots[..])
      ensures slot != -1 ==>
        && 0 <= slot < MAX_DEVICES && !old(slots[slot].inUse)
        && (forall i | 0 <= i < slot :: old(slots[i].inUse))
        && slots[..] == old(slots[..])[slot := EMPTY.(token := fd)]
    {
      var registered := Lookup(fd);
      if registered != -1 {
        return -1;
      }
      var i := 0;
      while i < MAX_DEVICES
        invariant 0 <= i <= MAX_DEVICES
        invariant forall j | 0 <= j < i :: slots[j].inUse
        invariant slots[..] == old(slots[..])
      {
        if !slots[i].inUse {
          slots[i] := EMPTY.(token := fd);
          return i;
        }
        i := i + 1;
      }
      slot := -1;
    }

    /** One call of the platform that may fail: on success, slot `i` holds the next
        rung of the ladder. */
    method Obtain(i: nat, ghost r: Resource) returns (ok: bool)
      requires i < |held| && held[i] == LADDER[..RungOf(r)]
      modifies this`held
      ensures held == if ok then old(held)[i := LADDER[..RungOf(r) + 1]] else old(held)
    {
      NextRung(r);
      ok := *;
      if ok {
        held := held[i := held[i] + [r]];
      }
    }

    /** Gives back `r`, which has to be the latest thing acquired. */
    method Free(i: nat, ghost r: Resource)
      requires i < |held| && held[i] == LADDER[..RungOf(r) + 1]
      modifies this`held
      ensures held == old(held)[i := LADDER[..RungOf(r)]]
    {
      NextRung(r);
      held := held[i := held[i][..|held[i]| - 1]];
    }

    /** The condition variable, on its clock: the attributes never outlive it. */
    method MakeCondition(i: nat) returns (ok: bool)
      requires i < |held| && held[i] == LADDER[..RungOf(CssCondition)]
      modifies this`held, this`attributes
      ensures held == if ok then old(held)[i := LADDER[..RungOf(CssCondition) + 1]] else old(held)
      ensures attributes == old(attributes)
    {
      ok := *;
      if !ok {
        return;
      }
      attributes := attributes + 1;
      ok := *;
      if !ok {
        attributes := attributes - 1;
        return;
      }
      ok := Obtain(i, CssCondition);
      attributes := attributes - 1;
    }

    /** Takes the kernel driver off the interface, if one is bound and lets go. */
    method DetachKernelDriver(i: nat)
      requires Shaped() && i < MAX_DEVICES && !slots[i].kernelDetached
      modifies this`kernel, slots
      ensures Shaped()
      ensures slots[..] == old(slots[..])[i := old(slots[i]).(kernelDetached := slots[i].kernelDetached)]
      ensures kernel == old(kernel) + if slots[i].kernelDetached then [Detached(slots[i].token)] else []
    {
      var active, letsGo: bool := *, *;
      if active && letsGo {
        slots[i] := slots[i].(kernelDetached := true);
        kernel := kernel + [Detached(slots[i].token)];
      }
    }

    /** Offers the device back, if its driver was taken off it. */
    method ReattachKernelDriver(i: nat)
      requires Shaped() && i < MAX_DEVICES
      requires slots[i].kernelDetached ==> kernel != [] && kernel[|kernel| - 1] == Detached(slots[i].token)
      modifies this`kernel, slots
      ensures Shaped()
      ensures slots[..] == old(slots[..])[i := old(slots[i]).(kernelDetached := false)]
      ensures kernel == old(kernel) + if old(slots[i].kernelDetached) then [OfferedBack(slots[i].token)] else []
    {
      if !slots[i].kernelDetached {
        return;
      }
      slots[i] := slots[i].(kernelDetached := false);
      kernel := kernel + [OfferedBack(slots[i].token)];
    }

    /** Registration up to the open handle: answers the rung to unwind from, or
        ERR_HANDLE with everything up to the handle in hand. */
    method OpenHandle(i: nat) returns (rung: nat)
      requires |held| == MAX_DEVICES && i < MAX_DEVICES && held[i] == []
      modifies this`held, this`attributes
      ensures rung <= ERR_HANDLE && held == old(held)[i := LADDER[..rung]]
      ensures attributes == old(attributes)
    {
      WholeLadder();
      assert old(held)[i := []] == held;
      var ok := Obtain(i, IoLock);
      if !ok {
        return ERR_SLOT;
      }
      ok := Obtain(i, CssMutex);
      if !ok {
        return ERR_IO_MUTEX;
      }
      ok := MakeCondition(i);
      if !ok {
        return ERR_CSS_MUTEX;
      }
      ok := Obtain(i, Context);
      if !ok {
        return ERR_CSS_COND;
      }
      ok := Obtain(i, Handle);
      if !ok {
        return ERR_CTX;
      }
      rung := ERR_HANDLE;
    }

    /** Registration from the open handle on: PUBLISHED, or the rung to unwind
        from. */
    method SetUpDevice(i: nat) returns (rung: nat)
      requires Shaped() && i < MAX_DEVICES && held[i] == LADDER[..ERR_HANDLE] && !slots[i].kernelDetached
      modifies this`held, this`kernel, this`resets, slots
      ensures Shaped() && rung in {ERR_HANDLE, ERR_IFACE, PUBLISHED}
      ensures held == old(held)[i := LADDER[..if rung == ERR_HANDLE then ERR_HANDLE else ERR_IFACE]]
      ensures resets == old(resets) + if rung == ERR_HANDLE then 0 else 1
      ensures slots[..] == old(slots[..])[i :=
        old(slots[i]).(kernelDetached := slots[i].kernelDetached, inUse := rung == PUBLISHED || old(slots[i].inUse))]
      ensures kernel == old(kernel) + if slots[i].kernelDetached then [Detached(slots[i].token)] else []
    {
      var found: bool := *;
      if !found {
        return ERR_HANDLE;
      }
      DetachKernelDriver(i);
      var claimed := Obtain(i, Interface);
      if !claimed {
        return ERR_HANDLE;
      }
      resets := resets + 1;
      var optical: Optical := *;
      if optical != Yes {
        return ERR_IFACE;
      }
      slots[i] := slots[i].(inUse := true);
      rung := PUBLISHED;
    }

    /** The unwind ladder, entered at `rung`. */
    method Unwind(i: nat, rung: nat)
      requires Shaped() && i < MAX_DEVICES && rung <= ERR_IFACE && held[i] == LADDER[..rung]
      requires slots[i].kernelDetached ==>
        rung >= ERR_HANDLE && kernel != [] && kernel[|kernel| - 1] == Detached(slots[i].token)
      modifies this`held, this`kernel, slots
      ensures Shaped()
      ensures held == old(held)[i := LADDER[..0]]
      ensures slots[..] == old(slots[..])[i := EMPTY]
      ensures kernel == old(kernel) + if old(slots[i].kernelDetached) then [OfferedBack(old(slots[i].token))] else []
    {
      if rung >= ERR_IFACE {
        Free(i, Interface);
      }
      if rung >= ERR_HANDLE {
        ReattachKernelDriver(i);
        Free(i, Handle);
      }
      if rung >= ERR_CTX {
        Free(i, Context);
      }
      if rung >= ERR_CSS_COND {
        Free(i, CssCondition);
      }
      if rung >= ERR_CSS_MUTEX {
        Free(i, CssMutex);
      }
      if rung >= ERR_IO_MUTEX {
        Free(i, IoLock);
      }
      slots[i] := EMPTY;
    }

    /** Registration once the slot is reserved: it is published with the whole ladder, or
        zeroed with all of it given back. */
    method Publish(i: nat) returns (published: bool)
      requires Shaped() && i < MAX_DEVICES && held[i] == [] && !slots[i].inUse && !slots[i].kernelDetached
      modifies this`held, this`attributes, this`kernel, this`resets, slots
      ensures Shaped()
      ensures published ==>
        && held == old(held)[i := LADDER] && resets == old(resets) + 1
        && slots[..] == old(slots[..])[i := old(slots[i]).(inUse := true, kernelDetached := slots[i].kernelDetached)]
        && kernel == old(kernel) + if slots[i].kernelDetached then [Detached(slots[i].token)] else []
      ensures !published ==>
        && held == old(held) && slots[..] == old(slots[..])[i := EMPTY]
        && old(resets) <= resets <= old(resets) + 1
        && (kernel == old(kernel)
            || kernel == old(kernel) + [Detached(old(slots[i].token)), OfferedBack(old(slots[i].token))])
    {
      hide Returned;
      WholeLadder();
      var rung := OpenHandle(i);
      if rung == ERR_HANDLE {
        rung := SetUpDevice(i);
      }
      published := rung == PUBLISHED;
      if !published {
        Unwind(i, rung);
      }
    }

    /** laser_register(): whichever of its steps fails, a failure leaves the table
        and the ledger as they were. */
    method Register(fd: int) returns (ghost slot: int)
      requires Valid()
      modifies this`held, this`attributes, this`kernel, this`resets, slots
      ensures Shaped()
      ensures slot == -1 ==> slots[..] == old(slots[..]) && held == old(held)
      ensures slot == -1 ==> kernel == old(kernel) || kernel == old(kernel) + [Detached(fd), OfferedBack(fd)]
      ensures old(resets) <= resets <= old(resets) + 1
      ensures slot != -1 ==>
        && 0 <= slot < MAX_DEVICES && !old(Published(fd)) && !old(slots[slot].inUse) && resets == old(resets) + 1
        && held == old(held)[slot := LADDER]
        && slots[..] == old(slots[..])[slot := Registered(fd, 0, fds, slots[slot].kernelDetached)]
        && kernel == old(kernel) + if slots[slot].kernelDetached then [Detached(fd)] else []
    {
      hide Consistent, In, IndexOf, Returned, StillOurs;
      var i := ReserveSlot(fd);
      if i == -1 {
        return -1;
      }
      FreeIsEmpty(old(slots[..]), held, history, i);
      if fd in fds {
        slots[i] := slots[i].(identity := fds[fd]);
      }
      slots[i] := slots[i].(maxTransferBytes := MAX_BYTES_PER_TRANSFER);
      var published := Publish(i);
      slot := if published then i else -1;
    }

    /** laser_acquire(). `slot` is the one registered by this call, if any. */
    method Acquire(token: int) returns (st: LaserStatus, ghost slot: int)
      requires Valid()
      modifies this`held, this`attributes, this`kernel, this`resets, this`history, slots
      ensures Valid() && st in {OK, NoSuchToken}
      ensures history == old(history) + [if st == OK then Acquired(token) else Denied(token)]
      // A refusal changes nothing, that of a recycled descriptor included.
      ensures st != OK ==> slots[..] == old(slots[..]) && held == old(held)
      // A claim on a published entry is refused exactly when its descriptor was recycled.
      ensures var i := IndexOf(old(slots[..]), token);
        i != -1 ==>
          && (st == OK <==> StillOurs(old(slots[i]), fds, token))
          && (st == OK ==> slots[..] == old(slots[..])[i := old(slots[i]).(refs := old(slots[i].refs) + 1)])
          && held == old(held) && kernel == old(kernel) && resets == old(resets)
      // A claim on anything else needs a free slot, and registers the device there.
      ensures old(resets) <= resets <= old(resets) + 1
      ensures st == OK && !old(Published(token)) ==>
        && 0 <= slot < MAX_DEVICES && !old(slots[slot].inUse) && resets == old(resets) + 1
        && slots[..] == old(slots[..])[slot := Registered(token, 1, fds, slots[slot].kernelDetached)]
        && held == old(held)[slot := LADDER]
        && kernel == old(kernel) + if slots[slot].kernelDetached then [Detached(token)] else []
      // A declined device whose driver was taken off it is offered back, a kept one is not.
      ensures st != OK ==> kernel == old(kernel) || kernel == old(kernel) + [Detached(token), OfferedBack(token)]
    {
      slot := -1;
      var entry := Lookup(token);
      if entry != -1 && !StillOurs(slots[entry], fds, token) {
        NoClaim(slots[..], held, history, Denied(token));
        history := history + [Denied(token)];
        return NoSuchToken, slot;
      }
      if entry == -1 {
        st, slot := RegisterAndClaim(token);
        return;
      }
      OneMoreClaim(slots[..], held, history, entry);
      CountClaim(entry, token);
      st := OK;
    }

    /** The first claim: registers the device, and counts if that has published it. */
    method RegisterAndClaim(token: int) returns (st: LaserStatus, ghost slot: int)
      requires Valid() && !Published(token)
      modifies this`held, this`attributes, this`kernel, this`resets, this`history, slots
      ensures Valid() && st in {OK, NoSuchToken}
      ensures history == old(history) + [if st == OK then Acquired(token) else Denied(token)]
      ensures st != OK ==>
        && slots[..] == old(slots[..]) && held == old(held)
        && (kernel == old(kernel) || kernel == old(kernel) + [Detached(token), OfferedBack(token)])
      ensures old(resets) <= resets <= old(resets) + 1
      ensures st == OK ==>
        && 0 <= slot < MAX_DEVICES && !old(slots[slot].inUse) && resets == old(resets) + 1
        && slots[..] == old(slots[..])[slot := Registered(token, 1, fds, slots[slot].kernelDetached)]
        && held == old(held)[slot := LADDER]
        && kernel == old(kernel) + if slots[slot].kernelDetached then [Detached(token)] else []
    {
      hide Settled, StillOurs, Returned, Net;
      slot := Register(token);
      var entry := Lookup(token);
      if entry == -1 {
        NoClaim(slots[..], held, history, Denied(token));
        history := history + [Denied(token)];
        return NoSuchToken, slot;
      }
      assert entry == slot;
      FirstClaim(old(slots[..]), old(held), history, slot, slots[slot].(refs := 1));
      CountClaim(entry, token);
      st := OK;
    }

    /** One claim more on a published entry. */
    method CountClaim(i: nat, ghost token: int)
      requires i < slots.Length
      modifies this`history, slots
      ensures slots[..] == old(slots[..])[i := old(slots[i]).(refs := old(slots[i].refs) + 1)]
      ensures history == old(history) + [Acquired(token)]
    {
      slots[i] := slots[i].(refs := slots[i].refs + 1);
      history := history + [Acquired(token)];
    }

    /** teardown_entry_locked(): a device known to be gone is not reset. */
    method Teardown(i: nat)
      requires Shaped() && i < MAX_DEVICES && held[i] == LADDER && slots[i].cancelled
      modifies this`held, this`resets, slots
      ensures Shaped()
      ensures held == old(held)[i := []] && slots[..] == old(slots[..])[i := EMPTY]
      ensures resets == old(resets) + if old(slots[i].deviceGone) then 0 else 1
    {
      WholeLadder();
      if !slots[i].deviceGone {
        resets := resets + 1;
      }
      Free(i, Interface);
      Free(i, Handle);
      Free(i, Context);
      Free(i, CssCondition);
      Free(i, CssMutex);
      Free(i, IoLock);
      slots[i] := EMPTY;
    }

    /** laser_release(): the last claim takes everything down, any other only its
        own count. */
    method Release(token: int)
      requires Valid()
      modifies this`held, this`resets, this`history, slots
      ensures Valid()
      ensures history == old(history) + [if old(Published(token)) then Released(token) else Ignored(token)]
      ensures !old(Published(token)) ==> slots[..] == old(slots[..]) && held == old(held) && resets == old(resets)
      ensures var i := IndexOf(old(slots[..]), token);
        i != -1 ==>
          if old(slots[i].refs) > 1 then
            && slots[..] == old(slots[..])[i := old(slots[i]).(refs := old(slots[i].refs) - 1)]
            && held == old(held) && resets == old(resets)
          else
            && slots[..] == old(slots[..])[i := EMPTY] && held == old(held)[i := []]
            && resets == old(resets) + if old(slots[i].deviceGone) then 0 else 1
    {
      var entry := Lookup(token);
      if entry == -1 {
        NoClaim(slots[..], held, history, Ignored(token));
        history := history + [Ignored(token)];
        return;
      }
      if slots[entry].refs <= 0 {
        // Unreachable: a published entry is a claimed one.
        assert false;
      }
      DropClaim(entry, token);
      if slots[entry].refs > 0 {
        OneClaimLess(old(slots[..]), held, old(history), entry);
        return;
      }
      LastClaim(old(slots[..]), held, old(history), entry);
      slots[entry] := slots[entry].(cancelled := true);
      Teardown(entry);
    }

    /** One claim less on a published entry. */
    method DropClaim(i: nat, ghost token: int)
      requires i < slots.Length
      modifies this`history, slots
      ensures slots[..] == old(slots[..])[i := old(slots[i]).(refs := old(slots[i].refs) - 1)]
      ensures history == old(history) + [Released(token)]
    {
      slots[i] := slots[i].(refs := slots[i].refs - 1);
      history := history + [Released(token)];
    }
  }

  // --------------------------------------------------------------- whole runs

  datatype Op =
    | Take(token: int)
    | Drop(token: int)
    | Else(slot: nat, gone: bool, cap: nat, names: map<int, Identity>)

  /** A take is answered. A published entry counts one claim more, unless its descriptor
      was recycled; any other token is registered in a free slot, or nothing happens. */
  predicate TakesClaim(a: Snap, token: int, b: Snap) {
    var i := IndexOf(a.slots, token);
    && b.fds == a.fds
    && (if b.history == a.history + [Denied(token)] then
          && b.slots == a.slots && b.held == a.held && (i == -1 || !StillOurs(a.slots[i], a.fds, token))
          && (b.kernel == a.kernel || b.kernel == a.kernel + [Detached(token), OfferedBack(token)])
          && a.resets <= b.resets <= a.resets + 1
        else
          && b.history == a.history + [Acquired(token)]
          && if i == -1 then Registers(a, token, b)
             else
               && StillOurs(a.slots[i], a.fds, token)
               && b.held == a.held && b.kernel == a.kernel && b.resets == a.resets
               && b.slots == a.slots[i := a.slots[i].(refs := a.slots[i].refs + 1)])
  }

  predicate Registers(a: Snap, token: int, b: Snap) {
    && |b.slots| == |a.slots| == |a.held| && b.resets == a.resets + 1
    && exists k :: 0 <= k < |a.slots| && !a.slots[k].inUse
                   && b.slots == a.slots[k := Registered(token, 1, a.fds, b.slots[k].kernelDetached)]
                   && b.held == a.held[k := LADDER]
                   && b.kernel == a.kernel + if b.slots[k].kernelDetached then [Detached(token)] else []
  }

  /** A drop releases exactly what is claimed: one claim, and with the last one the slot
      and all it holds. */
  predicate DropsClaim(a: Snap, token: int, b: Snap) {
    var i := IndexOf(a.slots, token);
    && b.fds == a.fds && b.kernel == a.kernel
    && b.history == a.history + [if Net(a.history, token) > 0 then Released(token) else Ignored(token)]
    && (if i == -1 then b.slots == a.slots && b.held == a.held && b.resets == a.resets
        else if a.slots[i].refs > 1 then
          && b.held == a.held && b.resets == a.resets
          && b.slots == a.slots[i := a.slots[i].(refs := a.slots[i].refs - 1)]
        else
          && i < |a.held| && b.held == a.held[i := []] && b.slots == a.slots[i := EMPTY]
          && b.resets == a.resets + if a.slots[i].deviceGone then 0 else 1)
  }

  predicate Leads(a: Snap, op: Op, b: Snap) {
    match op
    case Take(token) => TakesClaim(a, token, b)
    case Drop(token) => DropsClaim(a, token, b)
    case Else(i, gone, cap, names) => b == a.(fds := names, slots := Disturbed(a.slots, i, gone, cap))
  }

  /** Each of these is what the op before it leads to. */
  predicate Run(snaps: seq<Snap>, ops: seq<Op>) {
    && |snaps| == |ops| + 1
    && forall k | 0 <= k < |ops| :: Leads(snaps[k], ops[k], snaps[k + 1])
  }

  lemma RunBegins(a: Snap)
    ensures Run([a], [])
  {
  }

  lemma RunOneMore(snaps: seq<Snap>, ops: seq<Op>, k: nat, b: Snap)
    requires k < |ops| && |snaps| == k + 1 && Run(snaps, ops[..k]) && Leads(snaps[k], ops[k], b)
    ensures Run(snaps + [b], ops[..k + 1])
  {
    hide Leads;
    forall j | 0 <= j < k + 1
      ensures Leads((snaps + [b])[j], ops[..k + 1][j], (snaps + [b])[j + 1])
    {
      if j < k {
        assert Leads(snaps[j], ops[..k][j], snaps[j + 1]);
      }
    }
  }

  /** Every published entry of a token is held under this identity. */
  predicate HeldUnder(slots: seq<Slot>, token: int, id: Identity) {
    forall k | 0 <= k < |slots| && slots[k].inUse && slots[k].token == token :: slots[k].identity == id
  }

  lemma RegisteredUnder(a: Snap, token: int, b: Snap)
    requires Registers(a, token, b) && !In(a.slots, token)
    ensures HeldUnder(b.slots, token, if token in a.fds then a.fds[token] else Identity(0, 0))
  {
  }

  /** No op touches the identity of an entry that stays published. */
  lemma StaysUnder(a: Snap, op: Op, b: Snap, token: int, id: Identity)
    requires Leads(a, op, b) && In(a.slots, token) && HeldUnder(a.slots, token, id)
    ensures HeldUnder(b.slots, token, id)
  {
    hide Net;
  }

  lemma {:induction false} UnderSince(snaps: seq<Snap>, ops: seq<Op>, i: nat, j: nat, token: int, id: Identity)
    requires Run(snaps, ops) && i <= j <= |ops| && HeldUnder(snaps[i].slots, token, id)
    requires forall k | i <= k <= j :: In(snaps[k].slots, token)
    ensures HeldUnder(snaps[j].slots, token, id)
    decreases j
  {
    hide Leads, HeldUnder, In;
    if i < j {
      UnderSince(snaps, ops, i, j - 1, token, id);
      assert Leads(snaps[j - 1], ops[j - 1], snaps[j]);
      StaysUnder(snaps[j - 1], ops[j - 1], snaps[j], token, id);
    }
  }

  lemma TakenUnder(a: Snap, token: int, b: Snap, id: Identity)
    requires TakesClaim(a, token, b) && In(a.slots, token) && HeldUnder(a.slots, token, id)
    ensures b.history == a.history + [Denied(token)] <==>
      id != Identity(0, 0) && !(token in a.fds && a.fds[token] == id)
    ensures b.history == a.history + [Acquired(token)] || b.history == a.history + [Denied(token)]
  {
    assert b.history == a.history + [Acquired(token)] ==> b.history[|a.history|] == Acquired(token);
  }

  /** A descriptor that was closed and opened again on another device while its entry was
      still held is refused, and no other is. Over any run: a take registered the token,
      when its descriptor named `id`, or nothing that could be told; the entry has been
      published ever since; then a later take is denied exactly when there was something
      to tell, and the descriptor no longer names it. */
  lemma RecycledIsRefused(snaps: seq<Snap>, ops: seq<Op>, i: nat, j: nat, token: int, id: Identity)
    requires Run(snaps, ops) && i < j < |ops| && ops[i] == Take(token) && ops[j] == Take(token)
    requires !In(snaps[i].slots, token) && snaps[i + 1].history == snaps[i].history + [Acquired(token)]
    requires id == if token in snaps[i].fds then snaps[i].fds[token] else Identity(0, 0)
    requires forall k | i < k <= j :: In(snaps[k].slots, token)
    ensures snaps[j + 1].history == snaps[j].history + [Denied(token)] <==>
      id != Identity(0, 0) && !(token in snaps[j].fds && snaps[j].fds[token] == id)
  {
    hide HeldUnder, In, Registers, Net;
    assert Leads(snaps[i], ops[i], snaps[i + 1]) && Leads(snaps[j], ops[j], snaps[j + 1]);
    assert snaps[i + 1].history[|snaps[i].history|] == Acquired(token);
    RegisteredUnder(snaps[i], token, snaps[i + 1]);
    UnderSince(snaps, ops, i + 1, j, token, id);
    TakenUnder(snaps[j], token, snaps[j + 1], id);
  }

  method TakeOne(t: Table, token: int)
    requires t.Valid()
    modifies t, t.slots
    ensures t.Valid() && TakesClaim(old(t.Look()), token, t.Look())
  {
    hide Consistent, IndexOf, In, Returned, Net;
    var st;
    ghost var slot;
    st, slot := t.Acquire(token);
    ghost var a, b := old(t.Look()), t.Look();
    assert b.history[|a.history|] == if st == OK then Acquired(token) else Denied(token);
    if st == OK && IndexOf(a.slots, token) == -1 {
      assert a.slots[slot] == old(t.slots[slot]) && b.slots[slot] == t.slots[slot];
      assert Registers(a, token, b);
    }
  }

  method DropOne(t: Table, token: int)
    requires t.Valid()
    modifies t, t.slots
    ensures t.Valid() && DropsClaim(old(t.Look()), token, t.Look())
  {
    hide Returned, Net;
    t.Release(token);
  }

  method ServeOne(t: Table, op: Op)
    requires t.Valid()
    modifies t, t.slots
    ensures t.Valid() && Leads(old(t.Look()), op, t.Look())
  {
    hide Consistent, TakesClaim, DropsClaim, Disturbed;
    match op {
      case Take(token) => TakeOne(t, token);
      case Drop(token) => DropOne(t, token);
      case Else(i, gone, cap, names) => t.Elsewhere(i, gone, cap, names);
    }
  }

  /** What a table that is consistent with its history is worth. */
  lemma Claimed(slots: seq<Slot>, held: seq<seq<Resource>>, history: seq<Claim>)
    requires Consistent(slots, held, history)
    ensures forall token :: In(slots, token) <==> Net(history, token) > 0
    ensures forall token :: Net(history, token) >= 0
    ensures forall i | 0 <= i < MAX_DEVICES :: held[i] == if slots[i].inUse then LADDER else []
  {
    hide Net;
  }

  /** Any threads, any claims, in any order, with devices lost, caps lowered and descriptors
      recycled in between: each call does to the table what it should, an entry is
      published exactly while somebody holds it, and what is held belongs to published
      entries. */
  method Serve(t: Table, ops: seq<Op>) returns (ghost snaps: seq<Snap>)
    requires t.Valid()
    modifies t, t.slots
    ensures t.Valid()
    ensures |snaps| == |ops| + 1 && Run(snaps, ops) && snaps[0] == old(t.Look()) && snaps[|ops|] == t.Look()
    ensures forall token :: t.Published(token) <==> Net(t.history, token) > 0
    ensures forall token :: Net(t.history, token) >= 0
    ensures forall i | 0 <= i < MAX_DEVICES :: t.held[i] == if t.slots[i].inUse then LADDER else []
  {
    hide Consistent, Leads, Run, Net, In;
    snaps := [t.Look()];
    RunBegins(t.Look());
    for k := 0 to |ops|
      invariant t.Valid() && |snaps| == k + 1 && Run(snaps, ops[..k])
      invariant snaps[0] == old(t.Look()) && snaps[k] == t.Look()
    {
      ServeOne(t, ops[k]);
      RunOneMore(snaps, ops, k, t.Look());
      snaps := snaps + [t.Look()];
    }
    assert ops[..|ops|] == ops;
    Claimed(t.slots[..], t.held, t.history);
  }
}
