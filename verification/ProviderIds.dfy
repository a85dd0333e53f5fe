/** `createProviderIdRegistry` of src/openclaw/shared.ts: provider ids for logical keys, beside native ids. */
module ProviderIds {
  import opened Common

  datatype Owner = Logical(key: string) | Native(id: string)

  class Registry {
    const candidate: string -> string
    var idByLogicalKey: map<string, string>
    var ownerById: map<string, Owner>

    /** Each id has the owner that was given it, so two keys, or a key and a native id, never share one. */
    ghost predicate Valid()
      reads this
    {
      && (forall k <- idByLogicalKey :: idByLogicalKey[k] == candidate(k))
      && (forall k <- idByLogicalKey :: candidate(k) in ownerById && ownerById[candidate(k)] == Logical(k))
      && (forall i <- ownerById ::
        ownerById[i].Logical? ==> ownerById[i].key in idByLogicalKey && candidate(ownerById[i].key) == i)
      && (forall i <- ownerById :: ownerById[i].Native? ==> ownerById[i].id == i)
    }

    constructor (candidate: string -> string)
      ensures Valid() && this.candidate == candidate && idByLogicalKey == map[] && ownerById == map[]
    {
      this.candidate := candidate;
      idByLogicalKey, ownerById := map[], map[];
    }

    /** The id of a key: refused exactly when it belongs to another key or is a native id. */
    method ResolveLogical(key: string) returns (id: Option<string>)
      requires Valid()
      modifies this
      ensures Valid()
      ensures id == if candidate(key) in old(ownerById) && old(ownerById)[candidate(key)] != Logical(key) then None
        else Some(candidate(key))
      ensures id.Some? ==>
        idByLogicalKey == old(idByLogicalKey)[key := id.value] && ownerById == old(ownerById)[id.value := Logical(key)]
      ensures id.None? ==>
        idByLogicalKey == old(idByLogicalKey) && ownerById == old(ownerById) && key !in idByLogicalKey
    {
      if key in idByLogicalKey && idByLogicalKey[key] != "" {
        return Some(idByLogicalKey[key]);
      }
      var next := candidate(key);
      if next in ownerById && ownerById[next] != Logical(key) {
        return None;
      }
      idByLogicalKey := idByLogicalKey[key := next];
      ownerById := ownerById[next := Logical(key)];
      id := Some(next);
    }

    /** A native id: refused exactly when it is the id of a key. */
    method ReserveNative(nativeId: string) returns (ok: bool)
      requires Valid()
      modifies `ownerById
      ensures Valid()
      ensures ok <==> !exists k <- idByLogicalKey :: idByLogicalKey[k] == nativeId
      ensures ownerById == if ok then old(ownerById)[nativeId := Native(nativeId)] else old(ownerById)
    {
      if nativeId in ownerById && ownerById[nativeId].Logical? {
        assert ownerById[nativeId].key in idByLogicalKey;
        return false;
      }
      ownerById := ownerById[nativeId := Native(nativeId)];
      ok := true;
    }
  }
}
