/** The plugin-data objects, each operation run to completion as the queue runs it. */
module PluginDataStore {

  import opened Options
  import opened PluginData

  /** The file and the mutex's cache of it. */
  class PluginDataMutex {
    var disk: Option<Blob>
    var cache: Option<Blob>

    function Contents(): Blob
      reads this
    {
      if disk.Some? then disk.value else map[]
    }

    ghost predicate Valid()
      reads this
    {
      cache.Some? ==> cache.value == Contents()
    }

    constructor (initial: Option<Blob>)
      ensures Valid() && disk == initial
    {
      disk, cache := initial, None;
    }

    /** The current blob, or nothing when reading fails. */
    method Current(readable: bool) returns (blob: Option<Blob>)
      requires Valid()
      modifies this`cache
      ensures Valid()
      ensures blob.Some? ==> blob.value == Contents()
      ensures blob.None? <==> old(cache.None?) && !readable
    {
      if cache.None? {
        if !readable {
          return None;
        }
        cache := Some(Contents());
      }
      return cache;
    }

    /** Saves a blob; a save that fails leaves file and cache as they were. */
    method Persist(next: Blob, writable: bool) returns (ok: bool)
      requires Valid()
      modifies this
      ensures Valid() && ok == writable
      ensures ok ==> disk == Some(next)
      ensures !ok ==> disk == old(disk) && cache == old(cache)
    {
      if writable {
        disk := Some(next);
        cache := Some(next);
      }
      return writable;
    }

    /** Applies the mutator to exactly what is on disk, or changes nothing on disk; a mutator may throw. */
    method Update(mutator: Blob -> Option<Blob>, readable: bool, writable: bool) returns (ok: bool)
      requires Valid()
      modifies this
      ensures Valid()
      ensures ok <==> (old(cache.Some?) || readable) && mutator(old(Contents())).Some? && writable
      ensures disk == if ok then mutator(old(Contents())) else old(disk)
    {
      var blob := Current(readable);
      if blob.None? {
        return false;
      }
      var next := mutator(blob.value);
      if next.None? {
        return false;
      }
      ok := Persist(next.value, writable);
    }

    method Invalidate()
      modifies this`cache
      ensures Valid() && cache.None?
    {
      cache := None;
    }
  }

  /** A port of its own over a shared mutex. */
  class SerializedDataPort {
    const mutex: PluginDataMutex
    var lastLoaded: Blob

    constructor (shared: PluginDataMutex)
      ensures mutex == shared && lastLoaded == map[]
    {
      mutex, lastLoaded := shared, map[];
    }

    method Load(readable: bool) returns (blob: Option<Blob>)
      requires mutex.Valid()
      modifies this`lastLoaded, mutex`cache
      ensures mutex.Valid()
      ensures blob.Some? ==> blob.value == mutex.Contents() && lastLoaded == blob.value
      ensures blob.None? <==> old(mutex.cache.None?) && !readable
      ensures blob.None? ==> lastLoaded == old(lastLoaded)
    {
      blob := mutex.Current(readable);
      if blob.Some? {
        lastLoaded := blob.value;
      }
    }

    /** Writes the keys this port changed since its own load over whatever is on disk by now, and no other key. */
    method Save(data: Blob, readable: bool, writable: bool) returns (ok: bool)
      requires mutex.Valid()
      modifies mutex
      ensures mutex.Valid()
      ensures ok <==> (old(mutex.cache.Some?) || readable) && writable
      ensures ok ==> forall key ::
                At(mutex.Contents(), key)
                == if key in data && (key !in lastLoaded || data[key] != lastLoaded[key]) then Some(data[key])
                   else At(old(mutex.Contents()), key)
      ensures !ok ==> mutex.disk == old(mutex.disk)
    {
      var blob := mutex.Current(readable);
      if blob.None? {
        return false;
      }
      var next := ApplyChanges(blob.value, data, lastLoaded);
      MergedAt(blob.value, data, lastLoaded);
      ok := mutex.Persist(next, writable);
    }
  }
}
