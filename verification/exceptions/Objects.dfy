/** The exception objects in the heap: how they are made, deleted, and cleaned up by others. */
module ExceptionObjects {

  import opened ExceptionActions

  /** The live exception objects and the addresses freed so far. `corrupt` records a deletion
      of something that is not there. */
  datatype Heap = Heap(objects: Objects, freed: seq<nat>, corrupt: bool)

  /** What `createOurException` makes: zeroed memory with the type, the class and the cleanup
      function filled in. */
  function OurException(kind: int): Exception {
    Exception(OUR_BASE_EXCEPTION_CLASS, kind, DeleteFromUnwind, 0, 0)
  }

  function Created(h: Heap, address: nat, kind: int): Heap {
    h.(objects := h.objects[address := OurException(kind)])
  }

  /** Null and foreign exceptions are left alone. */
  function Deleted(h: Heap, address: nat): Heap {
    if address == 0 then h
    else if address !in h.objects then h.(corrupt := true)
    else if h.objects[address].exceptionClass == OUR_BASE_EXCEPTION_CLASS then
      Heap(h.objects - {address}, h.freed + [address], h.corrupt)
    else h
  }

  function DeletedAll(h: Heap, addresses: seq<nat>): Heap
    decreases |addresses|
  {
    if addresses == [] then h else DeletedAll(Deleted(h, addresses[0]), addresses[1..])
  }

  /** A fresh object is gone after its deletion, and nothing else has changed. */
  lemma DeleteUndoesCreate(h: Heap, address: nat, kind: int)
    requires address != 0 && address !in h.objects
    ensures Deleted(Created(h, address, kind), address) == Heap(h.objects, h.freed + [address], h.corrupt)
  {
    assert h.objects[address := OurException(kind)] - {address} == h.objects;
  }

  class Runtime {
    var objects: Objects
    var freed: seq<nat>

    constructor ()
      ensures objects == map[] && freed == []
    {
      objects := map[];
      freed := [];
    }

    /** `address` is what the allocator returns. */
    method CreateOurException(kind: int, address: nat) returns (exception: nat)
      requires address != 0 && address !in objects
      modifies this
      ensures exception == address && freed == old(freed)
      ensures objects == old(objects)[address := Exception(OUR_BASE_EXCEPTION_CLASS, kind, DeleteFromUnwind, 0, 0)]
      ensures Heap(objects, freed, false) == Created(Heap(old(objects), old(freed), false), address, kind)
    {
      var ret := Exception(0, 0, OtherCleanup, 0, 0);
      ret := ret.(kind := kind);
      ret := ret.(exceptionClass := OUR_BASE_EXCEPTION_CLASS);
      ret := ret.(cleanup := DeleteFromUnwind);
      objects := objects[address := ret];
      exception := address;
    }

    method DeleteOurException(expToDelete: nat)
      requires expToDelete == 0 || expToDelete in objects
      modifies this
      ensures if expToDelete != 0 && old(objects)[expToDelete].exceptionClass == OUR_BASE_EXCEPTION_CLASS
              then objects == old(objects) - {expToDelete} && freed == old(freed) + [expToDelete]
              else unchanged(this)
      ensures Heap(objects, freed, false) == Deleted(Heap(old(objects), old(freed), false), expToDelete)
    {
      if expToDelete != 0 && objects[expToDelete].exceptionClass == OUR_BASE_EXCEPTION_CLASS {
        objects := objects - {expToDelete};
        freed := freed + [expToDelete];
      }
    }

    method DeleteFromUnwindOurException(expToDelete: nat)
      requires expToDelete == 0 || expToDelete in objects
      modifies this
      ensures if expToDelete != 0 && old(objects)[expToDelete].exceptionClass == OUR_BASE_EXCEPTION_CLASS
              then objects == old(objects) - {expToDelete} && freed == old(freed) + [expToDelete]
              else unchanged(this)
      ensures Heap(objects, freed, false) == Deleted(Heap(old(objects), old(freed), false), expToDelete)
    {
      DeleteOurException(expToDelete);
    }
  }

  /** What a foreign handler does with an exception it has caught: it calls the cleanup
      function of the object. Other runtimes' functions leave our heap alone. */
  function CleanedUp(h: Heap, address: nat): Heap {
    if address in h.objects && h.objects[address].cleanup == DeleteFromUnwind then Deleted(h, address) else h
  }
}
