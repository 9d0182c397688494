/** The configuration store: a fixed-length array of entries allocated once
    the entry count is known, torn down as a whole (`a9l_config` and
    `a9l_config_entry`). */
module ConfigStore {
  import opened Wrappers
  import opened CNumbers

  /** One selectable boot target. `payload` is None while the slot holds no
      string (NULL, or a string already released). */
  datatype Entry = Entry(payload: Option<string>, offset: SizeT, buttons: bv32)

  /** The state every slot is put in right after allocation. */
  const EmptyEntry := Entry(None, 0, 0)

  class Config {
    var entries: array?<Entry>
    var numEntries: nat

    /** `num_entries` counts the slots of `entries`; without an array it is 0. */
    ghost predicate Valid()
      reads this
    {
      if entries == null then numEntries == 0 else entries.Length == numEntries
    }

    /** The entries, in slot order. */
    ghost function Contents(): seq<Entry>
      reads this, entries
      requires Valid()
    {
      if entries == null then [] else entries[..]
    }

    /** A zero-initialised configuration: no array, no entries. */
    constructor ()
      ensures Valid() && entries == null && numEntries == 0 && Contents() == []
    {
      entries := null;
      numEntries := 0;
    }

    /** `a9l_config_initialize`: a fresh array of n slots, every slot with a
        NULL payload, offset 0 and no buttons. */
    method Initialize(n: nat)
      modifies this
      ensures Valid() && entries != null && fresh(entries)
      ensures numEntries == n
      ensures forall k :: 0 <= k < n ==> entries[k] == EmptyEntry
    {
      var slots := new Entry[n];
      entries := slots;
      numEntries := n;
      for i := 0 to n
        invariant entries == slots && numEntries == n
        invariant forall k :: 0 <= k < i ==> slots[k] == EmptyEntry
      {
        slots[i] := EmptyEntry;
      }
    }

    /** `a9l_config_get_number_of_entries`. */
    function NumberOfEntries(): nat
      reads this
    {
      numEntries
    }

    /** `a9l_config_get_entry`; indexing past the count is a contract violation. */
    function GetEntry(j: nat): Entry
      reads this, entries
      requires Valid() && j < numEntries
    {
      entries[j]
    }

    /** `a9l_config_entry_initialize` on slot j: the slot receives its own copy
        of the payload string, the offset and the buttons; no other slot
        changes. */
    method InitializeEntry(j: nat, payload: string, offset: SizeT, buttons: bv32)
      requires Valid() && j < numEntries
      modifies entries
      ensures Valid()
      ensures entries[..] == old(entries[..])[j := Entry(Some(payload), offset, buttons)]
    {
      entries[j] := Entry(Some(payload), offset, buttons);
    }

    /** `a9l_config_entry_destroy` on slot j: the payload string is released,
        offset and buttons return to 0; no other slot changes. */
    method DestroyEntry(j: nat)
      requires Valid() && j < numEntries
      modifies entries
      ensures Valid()
      ensures entries[..] == old(entries[..])[j := EmptyEntry]
    {
      entries[j] := entries[j].(payload := None, offset := 0, buttons := 0);
    }

    /** `a9l_config_destroy`: every slot is destroyed in turn, then the array
        is released and the count reset. With no entries the loop does not
        run. */
    method Destroy()
      requires Valid()
      modifies this, entries
      ensures Valid() && entries == null && numEntries == 0 && Contents() == []
      ensures old(entries) != null ==> forall k :: 0 <= k < old(numEntries) ==> old(entries)[k] == EmptyEntry
    {
      var i := 0;
      while i < numEntries
        invariant entries == old(entries) && numEntries == old(numEntries)
        invariant Valid() && i <= numEntries
        invariant forall k :: 0 <= k < i ==> entries[k] == EmptyEntry
      {
        DestroyEntry(i);
        i := i + 1;
      }
      entries := null;
      numEntries := 0;
    }
  }
}
