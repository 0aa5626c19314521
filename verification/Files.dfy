/** Checkpoint files (storage/pager.rs). */
module Files {
  /**
   The physical identity of one checkpoint file. Kinds: 0 current states, 1 base states,
   2 snapshots, 3 primary index, 4 event index, 5 snapshot index, 6 events.
   */
  datatype FileId = FileId(table: nat, generation: nat, kind: nat, segment: nat)
}
