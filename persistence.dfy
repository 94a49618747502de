/**
 * The driver's optional save file, which keeps the logical zero and the
 * turn count across restarts. The file is modelled by what it holds: nothing
 * readable, or a record whose keys may be missing, plus the number of
 * times it has been written.
 */
module SaveFile {

  datatype Option<T> = None | Some(value: T)
  {
    /** The value held, or `default` when there is none (Python's `dict.get`). */
    function GetOr(default: T): T {
      match this
      case None => default
      case Some(v) => v
    }
  }

  /** A saved record: the `zero` and `mpos` keys, each possibly absent. */
  datatype SaveData = SaveData(zero: Option<int>, mpos: Option<int>)

  /** The save file: its readable contents, if any, and how often it was written. */
  datatype Store = Store(file: Option<SaveData>, writes: nat)

  /** The record the driver writes: both keys present. */
  function Record(zero: int, mpos: int): SaveData {
    SaveData(Some(zero), Some(mpos))
  }

  /**
   * Saving `zero` and `mpos`: nothing happens without a save file; otherwise
   * the file ends up holding that record, and is written only when it did not
   * hold it already.
   */
  function Save(enabled: bool, store: Store, zero: int, mpos: int): (after: Store)
    ensures enabled ==> after.file == Some(Record(zero, mpos))
    ensures !enabled ==> after == store
    ensures store.writes <= after.writes <= store.writes + 1
  {
    if !enabled then store
    else if store.file == Some(Record(zero, mpos)) then store
    else Store(Some(Record(zero, mpos)), store.writes + 1)
  }

  /** A save writes the file exactly when there is one and its contents differ from the record. */
  lemma SaveWritesOnChange(enabled: bool, store: Store, zero: int, mpos: int)
    ensures Save(enabled, store, zero, mpos).writes == store.writes + 1 <==>
            enabled && store.file != Some(Record(zero, mpos))
  {
  }

  /** Saving the same record twice writes the file at most once. */
  lemma SaveIdempotent(enabled: bool, store: Store, zero: int, mpos: int)
    ensures Save(enabled, Save(enabled, store, zero, mpos), zero, mpos) == Save(enabled, store, zero, mpos)
  {
  }
}
