/** web/app.js, fetchHistory: one read at a time for each range, its answer kept for a short while. */
module HistoryCache {
  import opened Wrappers

  const TTL_MS: int := 15000

  type Key = string
  type Read = nat

  /** An entry holds either the read in flight or a finished read's data, which may be null. */
  datatype Entry<D> = Reading(at: int, read: Read) | Finished(at: int, data: Option<D>)

  /** What a caller gets: the promise of a read, or data kept from an earlier one. */
  datatype Reply<D> = Promise(read: Read) | Kept(data: D)

  /** A read that answered: its key, when, and what it brought. */
  datatype Done<D> = Done(key: Key, at: int, data: Option<D>)

  class Cache<D> {
    var entries: map<Key, Entry<D>>
    var nextRead: Read
    // Every read started, by its number, with its key; those still in flight; every answer.
    ghost var keys: seq<Key>
    ghost var inFlight: set<Read>
    ghost var answers: seq<Done<D>>

    /** A key's entry holds a read exactly when that read is in flight for it; other entries are answers. */
    ghost predicate Valid()
      reads this
    {
      && nextRead == |keys|
      && (forall r :: r in inFlight ==> r < |keys| && keys[r] in entries && entries[keys[r]].Reading?
                                        && entries[keys[r]].read == r)
      && (forall k :: k in entries && entries[k].Reading? ==> entries[k].read in inFlight && keys[entries[k].read] == k)
      && (forall k :: k in entries && entries[k].Finished? ==> Done(k, entries[k].at, entries[k].data) in answers)
    }

    constructor ()
      ensures Valid() && entries == map[] && keys == [] && inFlight == {} && answers == []
    {
      entries, nextRead, keys, inFlight, answers := map[], 0, [], {}, [];
    }

    /** started tells whether the call began a read of its own. A read in flight serves every caller, a fresh
        answer that is not null the unforced ones. */
    method FetchHistory(key: Key, force: bool, now: int) returns (reply: Reply<D>, started: bool)
      requires Valid()
      modifies this
      ensures Valid()
      ensures answers == old(answers)
      ensures var e := if key in old(entries) then Some(old(entries)[key]) else None;
              var served := e.Some? && (e.value.Reading? || (!force && e.value.data.Some? && now - e.value.at < 15000));
              && (started <==> !served)
              && (!started ==> reply == if e.value.Reading? then Promise(e.value.read) else Kept(e.value.data.value))
      ensures started ==> key in entries && entries[key] == Reading(now, |old(keys)|)
      ensures forall k :: k != key ==> (k in entries <==> k in old(entries)) && (k in entries ==> entries[k] == old(entries)[k])
      ensures started ==> reply == Promise(|old(keys)|) && keys == old(keys) + [key] && inFlight == old(inFlight) + {|old(keys)|}
      ensures started ==> forall r :: r in old(inFlight) ==> old(keys)[r] != key
      ensures !started ==> entries == old(entries) && keys == old(keys) && inFlight == old(inFlight)
      ensures !started && reply.Promise? ==> reply.read in inFlight && keys[reply.read] == key
      ensures reply.Kept? ==>
                && !force
                && exists at :: Done(key, at, Some(reply.data)) in answers && now - at < TTL_MS
    {
      if key in entries && entries[key].Reading? {
        return Promise(entries[key].read), false;
      }
      if !force && key in entries && entries[key].data.Some? && now - entries[key].at < TTL_MS {
        return Kept(entries[key].data.value), false;
      }
      started := true;
      reply := Promise(nextRead);
      entries := entries[key := Reading(now, nextRead)];
      keys, inFlight := keys + [key], inFlight + {nextRead};
      nextRead := nextRead + 1;
    }

    /** A read answers; null data is kept but never served. */
    method ReadDone(key: Key, read: Read, now: int, data: Option<D>)
      requires Valid() && read in inFlight && keys[read] == key
      modifies this
      ensures Valid()
      ensures inFlight == old(inFlight) - {read} && keys == old(keys)
      ensures answers == old(answers) + [Done(key, now, data)]
      ensures entries == old(entries)[key := Finished(now, data)]
    {
      entries := entries[key := Finished(now, data)];
      inFlight := inFlight - {read};
      answers := answers + [Done(key, now, data)];
    }

    /** A read fails: its own entry goes, and always does, and every other entry stays. */
    method ReadFailed(key: Key, read: Read)
      requires Valid() && read in inFlight && keys[read] == key
      modifies this
      ensures Valid()
      ensures inFlight == old(inFlight) - {read} && keys == old(keys) && answers == old(answers)
      ensures entries == old(entries) - {key}
    {
      if key in entries && entries[key].Reading? && entries[key].read == read {
        entries := entries - {key};
      }
      inFlight := inFlight - {read};
    }

    /** Two reads of one key are never in flight together. */
    lemma {:induction false} OneReadPerKey(r: Read, q: Read)
      requires Valid() && r in inFlight && q in inFlight
      ensures r < |keys| && q < |keys| && (keys[r] == keys[q] ==> r == q)
    {
      assert keys[r] in entries && keys[q] in entries;
    }
  }
}
