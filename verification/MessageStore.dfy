/** `SharedMessageStore` of core/runtime.rs: a message list and a version per session,
    with an unconditional write and a compare-and-swap write. */
module MessageStore {
  import opened Wrappers

  const VERSIONS: nat := 0x1_0000_0000_0000_0000

  datatype StoreEntry<M> = StoreEntry(messages: seq<M>, version: nat)

  type Entries<M> = map<string, StoreEntry<M>>

  /** What a session without an entry reads as. */
  function EntryOf<M>(store: Entries<M>, session: string): StoreEntry<M> {
    if session in store then store[session] else StoreEntry([], 0)
  }

  function NextVersion(version: nat): nat {
    (version + 1) % VERSIONS
  }

  function Written<M>(store: Entries<M>, session: string, messages: seq<M>): Entries<M> {
    store[session := StoreEntry(messages, NextVersion(EntryOf(store, session).version))]
  }

  /** A compare-and-swap leaves an entry behind even when it fails. */
  function Swapped<M>(store: Entries<M>, session: string, expected: nat, messages: seq<M>): Entries<M> {
    if EntryOf(store, session).version == expected then Written(store, session, messages)
    else store[session := EntryOf(store, session)]
  }

  class SharedMessageStore<M> {
    var inner: Entries<M>

    constructor ()
      ensures inner == map[]
    {
      inner := map[];
    }

    method Read(session: string) returns (messages: seq<M>, version: nat)
      ensures StoreEntry(messages, version) == EntryOf(inner, session)
    {
      if session in inner {
        messages, version := inner[session].messages, inner[session].version;
      } else {
        messages, version := [], 0;
      }
    }

    method Write(session: string, messages: seq<M>) returns (version: nat)
      modifies this
      ensures inner == Written(old(inner), session, messages)
      ensures version == inner[session].version
    {
      var entry := if session in inner then inner[session] else StoreEntry([], 0);
      version := (entry.version + 1) % VERSIONS;
      inner := inner[session := StoreEntry(messages, version)];
    }

    /** `None` stands for the source's `Err(())`. */
    method CompareAndWrite(session: string, expected: nat, messages: seq<M>) returns (version: Option<nat>)
      modifies this
      ensures inner == Swapped(old(inner), session, expected, messages)
      ensures version.Some? <==> EntryOf(old(inner), session).version == expected
      ensures version.Some? ==> version.value == inner[session].version
      ensures version.None? ==> forall s :: EntryOf(inner, s) == EntryOf(old(inner), s)
    {
      if session !in inner {
        inner := inner[session := StoreEntry([], 0)];
      }
      var entry := inner[session];
      if entry.version != expected {
        return None;
      }
      var next := (entry.version + 1) % VERSIONS;
      inner := inner[session := StoreEntry(messages, next)];
      version := Some(next);
    }

    method RemoveSession(session: string)
      modifies this
      ensures inner == old(inner) - {session}
    {
      inner := inner - {session};
    }
  }

  /** A swap takes effect exactly when the version is the expected one; otherwise no
      session reads differently. */
  lemma SwapSucceedsOrChangesNothing<M>(store: Entries<M>, session: string, expected: nat, messages: seq<M>)
    requires forall s | s in store :: store[s].version < VERSIONS
    ensures var after := Swapped(store, session, expected, messages);
      if EntryOf(store, session).version == expected
      then EntryOf(after, session) == StoreEntry(messages, NextVersion(expected))
           && EntryOf(after, session).version != expected
           && forall s | s != session :: EntryOf(after, s) == EntryOf(store, s)
      else forall s :: EntryOf(after, s) == EntryOf(store, s)
  {
  }

  /** A removed session starts again at version 0, so a swap that expects version 0 or 1
      can succeed on messages its client never read. */
  lemma RemovalRestartsVersions<M>(store: Entries<M>, session: string, mine: seq<M>, theirs: seq<M>)
    ensures var read := Written(map[], session, mine);
      var store' := Written(read - {session}, session, theirs);
      EntryOf(store', session).version == EntryOf(read, session).version
  {
  }
}
