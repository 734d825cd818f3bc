/** The memory behind a cached Secret (store and snapshot of gateway/internal/resources/manager.go): values are byte
    slices on the heap, copied when they are stored, and never written afterwards. */
module SecretMemory {
  import opened Text
  import opened Snapshot

  /** Secret data as the client delivers it and as the cache keeps it: every value a slice of its own. */
  type Slices = map<string, array<byte>>

  ghost function Footprint(m: Slices): set<object> {
    set k | k in m :: m[k] as object
  }

  /** The bytes the slices hold now. */
  ghost function Contents(m: Slices): Data
    reads Footprint(m)
  {
    map k | k in m :: m[k][..]
  }

  /** slices.Clone. */
  method Clone(v: array<byte>) returns (c: array<byte>)
    ensures fresh(c) && c[..] == v[..]
  {
    c := new byte[v.Length](i requires 0 <= i < v.Length reads v => v[i]);
  }

  /** The copying loop of store: the same bytes in new slices. */
  method CloneData(data: Slices) returns (copy: Slices)
    ensures Contents(copy) == Contents(data)
    ensures forall k :: k in copy ==> fresh(copy[k])
  {
    copy := map[];
    var keys := data.Keys;
    while keys != {}
      invariant keys <= data.Keys && copy.Keys == data.Keys - keys
      invariant forall k :: k in copy ==> fresh(copy[k]) && copy[k][..] == data[k][..]
      decreases |keys|
    {
      var k :| k in keys;
      var c := Clone(data[k]);
      copy := copy[k := c];
      keys := keys - {k};
    }
  }

  /** The cached data of one Secret. */
  class Slot {
    var data: Slices

    constructor ()
      ensures data == map[]
    {
      data := map[];
    }

    /** store: afterwards the cache holds the bytes the object held, in memory nobody else has. */
    method Store(obj: Slices)
      modifies this
      ensures Contents(data) == old(Contents(obj))
      ensures forall k :: k in data ==> fresh(data[k])
    {
      var copy := CloneData(obj);
      data := copy;
    }

    /** snapshot: readers share the slices. */
    method Read() returns (m: Slices)
      ensures m == data
    {
      m := data;
    }
  }

  /** What the client may do next: write into one of its slices, or deliver an object made of them. */
  datatype Deed = Write(v: array<byte>, i: nat, b: byte) | Deliver(obj: Slices)

  /** The deed touches and delivers the client's own memory only. */
  ghost predicate Within(deed: Deed, mine: set<array<byte>>) {
    match deed
    case Write(v, _, _) => v in mine
    case Deliver(obj) => forall k :: k in obj ==> obj[k] in mine
  }

  /** Whatever the client writes into its memory afterwards, and whatever is stored later, however often, a snapshot
      handed out keeps its bytes. */
  method SnapshotsNeverChange(slot: Slot, obj: Slices, mine: set<array<byte>>, deeds: seq<Deed>)
    returns (handed: Slices)
    requires Within(Deliver(obj), mine) && forall i :: 0 <= i < |deeds| ==> Within(deeds[i], mine)
    modifies slot, mine
    ensures Contents(handed) == old(Contents(obj))
  {
    slot.Store(obj);
    handed := slot.Read();
    for n := 0 to |deeds|
      invariant Contents(handed) == old(Contents(obj)) && forall k :: k in handed ==> handed[k] !in mine
    {
      assert Within(deeds[n], mine);
      match deeds[n] {
        case Write(v, i, b) =>
          if i < v.Length {
            v[i] := b;
          }
        case Deliver(next) => slot.Store(next);
      }
    }
  }
}
