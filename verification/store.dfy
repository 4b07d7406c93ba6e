/**
  The two tables the integration writes: the mass requests (`TransportPassRequest`)
  and the pass requests (`PassRequests`), each in primary-key order. A pass request
  belongs to the mass request its `massId` names.
 */
module Store {
  import opened Records

  class Database {
    var massRequests: seq<MassRequest>
    var passRequests: seq<PassRequest>

    constructor (massRequests: seq<MassRequest>, passRequests: seq<PassRequest>)
      ensures this.massRequests == massRequests && this.passRequests == passRequests
    {
      this.massRequests := massRequests;
      this.passRequests := passRequests;
    }

    /** `save()` of mass request `m`: it gets `newId` as its message id when it has none. */
    method SaveMass(m: nat, newId: Uuid)
      requires m < |massRequests|
      modifies this
      ensures massRequests == old(massRequests)[m := SaveMassRequest(old(massRequests)[m], newId)]
      ensures massRequests[m].messId.Some?
      ensures passRequests == old(passRequests)
    {
      massRequests := massRequests[m := SaveMassRequest(massRequests[m], newId)];
    }

    /** `save()` of pass request `k` holding `row`: it gets `newId` as its request id when it has none. */
    method SavePass(k: nat, row: PassRequest, newId: Uuid)
      requires k < |passRequests|
      modifies this
      ensures passRequests == old(passRequests)[k := SavePassRequest(row, newId)]
      ensures passRequests[k].pId.Some?
      ensures massRequests == old(massRequests)
    {
      passRequests := passRequests[k := SavePassRequest(row, newId)];
    }
  }

  /** Replacing the first of the rows not yet visited. */
  lemma ReplaceNext<T>(done: seq<T>, rows: seq<T>, k: nat, x: T)
    requires |done| == k < |rows|
    ensures (done + rows[k..])[k := x] == done + [x] + rows[k + 1..]
    ensures x == rows[k] ==> done + rows[k..] == done + [x] + rows[k + 1..]
  {
    assert rows[k..] == [rows[k]] + rows[k + 1..];
  }
}
