/**
 The backend list across polls, crashes and restarts. The process applies discovered lists to its
 pool and saves each applied list with one file-system call after another; it can crash between any
 two of them, losing its memory and keeping the disk, and later start again.
 */
module Discovery {
  import opened Admission
  import opened Backends
  import opened Options
  import opened Pools

  type IP = seq<int>

  /** The state file: absent, unreadable, or a decoded server list. */
  datatype File = Absent | Garbage | Data(servers: seq<string>)

  datatype Disk = Disk(file: File, temps: map<nat, File>)

  /** The calls of saveState, in order. */
  datatype Call = CreateTemp | Chmod | Write | CloseTemp | Rename

  function Following(call: Call): Call
    requires !call.Rename?
  {
    match call
    case CreateTemp => Chmod
    case Chmod => Write
    case Write => CloseTemp
    case CloseTemp => Rename
  }

  /** What one call leaves on disk; a write that fails may have written anything. */
  function Effect(d: Disk, call: Call, name: nat, list: seq<string>, ok: bool): Disk {
    match call
    case CreateTemp => if ok then d.(temps := d.temps[name := Garbage]) else d
    case Write => d.(temps := d.temps[name := if ok then Data(list) else Garbage])
    case Rename => if ok && name in d.temps then Disk(d.temps[name], d.temps - {name}) else d
    case _ => d
  }

  function RemoveTemp(d: Disk, name: nat): Disk {
    d.(temps := d.temps - {name})
  }

  /** LoadState: a usable list, or none. */
  function Load(f: File): Option<seq<string>> {
    if f.Data? && f.servers != [] then Some(f.servers) else None
  }

  /** The list a process starts from: the saved one if it is usable and still admitted, else the seed. */
  ghost function Resume(f: File, net: Net<IP>, listen: string, seed: seq<string>): seq<string> {
    match Load(f)
    case Some(list) => if Admits(net, listen, list) then list else seed
    case None => seed
  }

  /** The list in the pool after a discovered list has been through the guards of apply. */
  ghost function Applied(net: Net<IP>, listen: string, pool: seq<string>, addrs: seq<string>): seq<string> {
    if addrs == [] || Same(addrs, pool) || !Admits(net, listen, addrs) then pool else addrs
  }

  /** One list has an address that the other lacks. */
  ghost predicate Differ(xs: seq<string>, ys: seq<string>) {
    exists a :: (a in xs) != (a in ys)
  }

  /** What the poller is to do with a list, in terms of the list and the pool alone. */
  ghost predicate Obeys(net: Net<IP>, listen: string, known: seq<string>, addrs: seq<string>, now: seq<string>) {
    if addrs == [] || !Admits(net, listen, addrs) then now == known
    else
      && (forall a :: a in now <==> a in addrs)
      && (Differ(addrs, known) ==> now == addrs)
      && (!Differ(addrs, known) && Distinct(known) ==> now == known)
  }

  lemma SameMeansAlike(addrs: seq<string>, known: seq<string>)
    requires Distinct(addrs) && Same(addrs, known)
    ensures !Differ(addrs, known)
  {
    ShortcutIsSafe(addrs, known);
    forall a ensures a in addrs <==> a in known {
      MissingIs(addrs, known, a);
      MissingIs(known, addrs, a);
    }
  }

  lemma AlikeMeansSame(addrs: seq<string>, known: seq<string>)
    requires Distinct(addrs) && Distinct(known) && !Differ(addrs, known)
    ensures Same(addrs, known)
  {
    forall a ensures a !in Missing(addrs, known) && a !in Missing(known, addrs) {
      MissingIs(addrs, known, a);
      MissingIs(known, addrs, a);
    }
    NoneIsEmpty(Missing(addrs, known));
    NoneIsEmpty(Missing(known, addrs));
    ShortcutIsExact(addrs, known);
  }

  /**
   An admitted list becomes the pool's set of addresses, and the list itself if that set is another one; an
   empty or rejected list changes nothing.
   */
  lemma AppliedObeys(net: Net<IP>, listen: string, known: seq<string>, addrs: seq<string>)
    ensures Obeys(net, listen, known, addrs, Applied(net, listen, known, addrs))
  {
    if addrs != [] && Admits(net, listen, addrs) {
      if Same(addrs, known) {
        SameMeansAlike(addrs, known);
      } else if !Differ(addrs, known) && Distinct(known) {
        AlikeMeansSame(addrs, known);
      }
    }
  }

  predicate AllOk(ok: Call -> bool) {
    ok(CreateTemp) && ok(Chmod) && ok(Write) && ok(CloseTemp) && ok(Rename)
  }

  // ---------------------------------------------------------------- one process, as it runs

  class Store {
    var disk: Disk

    /** saveState, with the outcome of each call given; the temporary file is removed on every way out. */
    method Save(list: seq<string>, name: nat, ok: Call -> bool, removes: bool) returns (saved: bool)
      requires name !in disk.temps
      modifies this
      ensures saved <==> AllOk(ok)
      ensures disk.file == if saved then Data(list) else old(disk.file)
      ensures removes ==> disk.temps == old(disk.temps)
    {
      disk := Effect(disk, CreateTemp, name, list, ok(CreateTemp));
      if !ok(CreateTemp) {
        return false;
      }
      if !ok(Chmod) {
        saved := false;
      } else {
        disk := Effect(disk, Write, name, list, ok(Write));
        if !ok(Write) || !ok(CloseTemp) {
          saved := false;
        } else {
          disk := Effect(disk, Rename, name, list, ok(Rename));
          saved := ok(Rename);
        }
      }
      if removes {
        disk := RemoveTemp(disk, name);
        assert disk.temps == old(disk.temps);
      }
    }
  }

  /** Draining the removed backends, one after another, leaves the others alone. */
  method DrainEach(removed: seq<Backend>, ghost known: seq<Backend>)
    requires forall b | b in removed :: b in known
    requires forall b | b in known :: b.Valid()
    modifies set b | b in removed :: b`conns
    modifies set b | b in removed :: b`drained
    modifies set b, c | b in removed && c in b.conns :: c
    ensures forall b | b in known :: b.Valid()
    ensures forall b | b in known :: b.conns == if b in removed then {} else old(b.conns)
  {
    for i := 0 to |removed|
      invariant forall b | b in known :: b.Valid()
      invariant forall b | b in known :: b.conns == if b in removed[..i] then {} else old(b.conns)
    {
      var b := removed[i];
      assert b in removed && b.conns <= old(b.conns);
      var drained := b.DrainAll();
    }
    assert removed[..|removed|] == removed;
  }

  class Poller {
    const pool: Pool
    const store: Store

    constructor (pool: Pool, store: Store)
      ensures this.pool == pool && this.store == store
    {
      this.pool, this.store := pool, store;
    }

    /** The second half of apply: the new pool, the saved list, and the drain of every removed backend. */
    method Install(addrs: seq<string>, persist: bool, name: nat, ok: Call -> bool) returns (saved: bool)
      requires forall b | b in pool.backends :: b.Valid()
      requires name !in store.disk.temps
      modifies pool`backends, store, pool.backends, set b, c | b in pool.backends && c in b.conns :: c
      ensures Addrs(pool.backends) == addrs
      ensures saved <==> persist && AllOk(ok)
      ensures store.disk.file == if saved then Data(addrs) else old(store.disk.file)
      ensures store.disk.temps == old(store.disk.temps)
      ensures forall b | b in old(pool.backends) :: b.conns == if b.addr in addrs then old(b.conns) else {}
      ensures forall b | b in old(pool.backends) && b.addr in addrs :: b.State() == old(b.State())
      ensures forall b | b in pool.backends && b !in old(pool.backends) ::
        b.addr !in Addrs(old(pool.backends)) && fresh(b) && b.State() == FRESH && b.conns == {}
    {
      ghost var known := pool.backends;
      var added, removed := pool.SetAddrs(addrs);
      saved := false;
      if persist {
        saved := store.Save(addrs, name, ok, true);
      }
      DrainEach(removed, known);
    }

    /** apply: a list that gets past the guards is installed. */
    method Apply(net: Net<IP>, listen: string, addrs: seq<string>, persist: bool, name: nat, ok: Call -> bool)
      returns (saved: bool)
      requires forall b | b in pool.backends :: b.Valid()
      requires name !in store.disk.temps
      modifies pool`backends, store, pool.backends, set b, c | b in pool.backends && c in b.conns :: c
      ensures Obeys(net, listen, Addrs(old(pool.backends)), addrs, Addrs(pool.backends))
      ensures Addrs(pool.backends) == Addrs(old(pool.backends)) ==> pool.backends == old(pool.backends)
      ensures saved <==> (Addrs(pool.backends) != Addrs(old(pool.backends)) && persist && AllOk(ok))
      ensures store.disk.file == if saved then Data(Addrs(pool.backends)) else old(store.disk.file)
      ensures store.disk.temps == old(store.disk.temps)
      ensures forall b | b in old(pool.backends) ::
        b.conns == if b.addr in Addrs(pool.backends) then old(b.conns) else {}
      ensures forall b | b in old(pool.backends) && b.addr in Addrs(pool.backends) :: b.State() == old(b.State())
      ensures forall b | b in pool.backends && b !in old(pool.backends) ::
        b.addr !in Addrs(old(pool.backends)) && fresh(b) && b.State() == FRESH && b.conns == {}
    {
      AppliedObeys(net, listen, Addrs(pool.backends), addrs);
      if |addrs| == 0 {
        return false;
      }
      var same := SameAddrs(addrs, pool.backends);
      if same {
        return false;
      }
      var problem := ValidateServers(net, addrs, listen);
      if problem.Some? {
        return false;
      }
      saved := Install(addrs, persist, name, ok);
    }
  }
}
