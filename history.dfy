/**
 * The summary history both scripts keep in `summary.json`: a JSON array of run
 * records.  Every run that saves loads the array (an absent file or text that does
 * not decode counts as an empty array), appends one record at the end and writes
 * the whole array back.  The JSON text itself is abstracted away: what the file
 * holds is a `Stored` value.
 */
module History {
  import opened Wrappers

  /** A document that decodes: an array of records, or some other JSON value. */
  datatype Document<T> = JsonArray(items: seq<T>) | OtherJson

  datatype Stored<T> = Missing | Undecodable | Decoded(doc: Document<T>)

  /** The list a run starts from: the stored array, otherwise the empty list. */
  function Existing<T>(s: Stored<T>): seq<T> {
    match s
    case Decoded(JsonArray(items)) => items
    case _ => []
  }

  /** The file after one save. */
  function Persist<T>(s: Stored<T>, entry: T): (r: Stored<T>)
    ensures r.Decoded? && r.doc.JsonArray?
    ensures |Existing(r)| == |Existing(s)| + 1
    ensures forall i :: 0 <= i < |Existing(s)| ==> Existing(r)[i] == Existing(s)[i]
    ensures Existing(r)[|Existing(s)|] == entry
  {
    Decoded(JsonArray(Existing(s) + [entry]))
  }

  /** The file after one save as the scripts are written: `existing.append` is
      applied to whatever `json.load` returned, so a document that decodes to
      anything but an array raises AttributeError and nothing is written. */
  function PersistAsWritten<T>(s: Stored<T>, entry: T): Option<Stored<T>> {
    match s
    case Decoded(OtherJson) => None
    case _ => Some(Decoded(JsonArray(Existing(s) + [entry])))
  }

  /** Where the written code does save, it saves what `Persist` does; on a document
      that is not an array it stops, while `Persist` starts a fresh history. */
  lemma AsWrittenDiffersOnlyOnOtherJson<T>(s: Stored<T>, entry: T)
    ensures s != Decoded(OtherJson) ==> PersistAsWritten(s, entry) == Some(Persist(s, entry))
    ensures PersistAsWritten(Decoded(OtherJson), entry) == None
    ensures Existing(Persist(Decoded(OtherJson), entry)) == [entry]
  {
  }

  /** A sequence of saves, oldest first. */
  function PersistAll<T>(s: Stored<T>, entries: seq<T>): Stored<T> {
    if entries == [] then s
    else Persist(PersistAll(s, entries[..|entries| - 1]), entries[|entries| - 1])
  }

  /** Reloading after N saves gives the old records followed by the N new ones,
      in the order they were saved. */
  lemma {:induction false} ReloadAfterSaves<T>(s: Stored<T>, entries: seq<T>)
    ensures Existing(PersistAll(s, entries)) == Existing(s) + entries
  {
    if entries != [] {
      var init := entries[..|entries| - 1];
      ReloadAfterSaves(s, init);
      assert entries == init + [entries[|entries| - 1]];
    }
  }

  /** Starting from an absent or undecodable file, N saves leave exactly those N
      records. */
  lemma {:induction false} SavesFromEmpty<T>(s: Stored<T>, entries: seq<T>)
    requires s == Missing || s == Undecodable
    ensures Existing(PersistAll(s, entries)) == entries
  {
    ReloadAfterSaves(s, entries);
  }

  /** `summary.json` as it sits on disk between runs. */
  class HistoryFile<T> {
    var stored: Stored<T>

    constructor (initial: Stored<T>)
      ensures stored == initial
    {
      stored := initial;
    }

    /** Load the history (empty when it does not load as an array), append
        `entry`, write the array back. */
    method Save(entry: T)
      modifies this
      ensures stored == Persist(old(stored), entry)
    {
      var existing: seq<T> := [];
      match stored {
        case Decoded(JsonArray(items)) => existing := items;
        case _ =>
      }
      existing := existing + [entry];
      stored := Decoded(JsonArray(existing));
    }
  }
}
