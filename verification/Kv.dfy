/** The key-value map of a participant. */
module Kv {
  type Store = map<string, string>

  const KV_OK: int := 0
  const KV_DEL: int := -10

  function Keys(ks: seq<string>): set<string> {
    set k | k in ks
  }

  /** What deleting `ks` one after another does: the listed keys go, and the count is of those that were
      there when their turn came. */
  function DeleteAll(kv: Store, ks: seq<string>): (r: (Store, nat))
  {
    if ks == [] then (kv, 0)
    else
      var d, k := DeleteAll(kv, ks[..|ks| - 1]), ks[|ks| - 1];
      (d.0 - {k}, d.1 + if k in d.0 then 1 else 0)
  }

  /** The listed keys go, and nothing else; a key counts once however often it is listed. */
  lemma {:induction false} DeleteAllEffect(kv: Store, ks: seq<string>)
    ensures DeleteAll(kv, ks).0 == kv - Keys(ks)
    ensures DeleteAll(kv, ks).1 == |kv.Keys * Keys(ks)|
  {
    if ks == [] {
      DeleteNone(kv);
    } else {
      var rest, k := ks[..|ks| - 1], ks[|ks| - 1];
      DeleteAllEffect(kv, rest);
      KeysSplit(ks);
      DeleteOne(kv, Keys(rest), k);
    }
  }

  lemma KeysSplit(ks: seq<string>)
    requires ks != []
    ensures Keys(ks) == Keys(ks[..|ks| - 1]) + {ks[|ks| - 1]}
  {
    forall k ensures k in ks <==> k in ks[..|ks| - 1] || k == ks[|ks| - 1] {
      assert ks == ks[..|ks| - 1] + [ks[|ks| - 1]];
    }
  }

  lemma DeleteNone(kv: Store)
    ensures kv - Keys([]) == kv && |kv.Keys * Keys([])| == 0
  {
    assert Keys([]) == {};
    assert kv.Keys * {} == {};
  }

  lemma DeleteOne(kv: Store, gone: set<string>, k: string)
    ensures kv - (gone + {k}) == (kv - gone) - {k}
    ensures |kv.Keys * (gone + {k})| == |kv.Keys * gone| + if k in kv - gone then 1 else 0
  {
    if k in kv - gone {
      assert kv.Keys * (gone + {k}) == kv.Keys * gone + {k};
    } else {
      assert kv.Keys * (gone + {k}) == kv.Keys * gone;
    }
  }

  function Lookup(kv: Store, k: string): string {
    if k in kv then kv[k] else "nil"
  }

  class KV {
    var kvdb: Store

    constructor ()
      ensures kvdb == map[]
    {
      kvdb := map[];
    }

    method KvSet(k: string, v: string) returns (rc: int)
      modifies this
      ensures rc == KV_OK && kvdb == old(kvdb)[k := v]
    {
      kvdb := kvdb[k := v];
      return KV_OK;
    }

    method KvDel(k: string) returns (rc: int)
      modifies this
      ensures kvdb == old(kvdb) - {k}
      ensures rc == if k in old(kvdb) then KV_OK else KV_DEL
    {
      if k in kvdb {
        kvdb := kvdb - {k};
        return KV_OK;
      } else {
        return KV_DEL;
      }
    }

    method KvDelArry(ks: seq<string>) returns (number: nat)
      modifies this
      ensures (kvdb, number) == DeleteAll(old(kvdb), ks)
      ensures kvdb == old(kvdb) - Keys(ks) && number == |old(kvdb).Keys * Keys(ks)|
    {
      number := 0;
      for i := 0 to |ks|
        invariant (kvdb, number) == DeleteAll(old(kvdb), ks[..i])
      {
        assert ks[..i + 1][..i] == ks[..i];
        var rc := KvDel(ks[i]);
        if rc == KV_OK { number := number + 1; }
      }
      assert ks[..|ks|] == ks;
      DeleteAllEffect(old(kvdb), ks);
    }

    method KvGet(k: string) returns (v: string)
      ensures v == Lookup(kvdb, k)
    {
      if k !in kvdb { return "nil"; } else { return kvdb[k]; }
    }
  }
}
