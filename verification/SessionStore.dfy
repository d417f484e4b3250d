/** The conversation store, one call at a time: a map in memory, its dirty mark and its file. */
module SessionStore {
  import opened WriteBehind

  class Store {
    var data: Data
    var dirty: bool
    var listed: nat
    var disk: Data

    // What is not in the file is marked.
    ghost predicate Valid()
      reads this
    {
      data == disk || dirty
    }

    constructor (file: Data)
      ensures Valid() && data == disk == file && !dirty && listed == 0
    {
      data, disk, dirty, listed := file, file, false, 0;
    }

    method MarkDirty()
      modifies this`dirty, this`listed
      ensures dirty && listed == old(listed) + 1
    {
      dirty := true;
      listed := listed + 1;
    }

    // A conversation without an id gets a new one, one without a creation time gets the present.
    method Upsert(v: Conversation, newId: string, now: nat) returns (r: Conversation)
      requires Valid() && newId != ""
      modifies this`data, this`dirty, this`listed
      ensures Valid() && dirty && listed == old(listed) + 1
      ensures data == Apply(WriteBehind.Upsert(r), old(data))
      ensures data.Keys == old(data.Keys) + {r.id} && data[r.id] == r
      ensures forall id :: id in old(data) && id != r.id ==> data[id] == old(data)[id]
      ensures r.id == (if v.id == "" then newId else v.id) && r.id != "" && r.updated == now
      ensures r == v.(id := r.id, created := if v.created == 0 then now else v.created, updated := now)
    {
      r := v;
      if r.id == "" {
        r := r.(id := newId);
      }
      if r.created == 0 {
        r := r.(created := now);
      }
      r := r.(updated := now);
      data := data[r.id := r];
      MarkDirty();
    }

    method Delete(id: string) returns (found: bool)
      requires Valid()
      modifies this`data, this`dirty, this`listed
      ensures Valid() && found == (id in old(data))
      ensures data == Apply(WriteBehind.Delete(id), old(data))
      ensures data.Keys == old(data.Keys) - {id}
      ensures forall k :: k in old(data) && k != id ==> data[k] == old(data)[k]
      ensures found ==> dirty && listed == old(listed) + 1
      ensures !found ==> data == old(data) && dirty == old(dirty) && listed == old(listed)
    {
      if id !in data {
        assert data - {id} == data;
        return false;
      }
      data := data - {id};
      MarkDirty();
      return true;
    }

    method FlushPending(ok: bool)
      requires Valid()
      modifies this`dirty, this`disk
      ensures Valid() && (ok ==> disk == data) && (!ok ==> disk == old(disk))
      ensures dirty == (old(dirty) && !ok)
    {
      if !dirty {
        return;
      }
      dirty := false;
      if ok {
        disk := data;
      } else {
        dirty := true;
      }
    }

    method FlushNowBlocking(ok: bool) returns (done: bool)
      requires Valid()
      modifies this`dirty, this`disk
      ensures Valid() && done == ok && dirty == !ok
      ensures disk == if ok then data else old(disk)
    {
      dirty := false;
      if !ok {
        dirty := true;
        return false;
      }
      disk := data;
      return true;
    }
  }
}
