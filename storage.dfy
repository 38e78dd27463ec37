/** The entry store (src/services/storage.ts): the list of saved entries kept
    under one key of the browser's local key/value storage, read with a default
    of the empty list and extended by a read-modify-write that appends one
    freshly embedded entry. The storage area is a class whose `items` the
    operations read and reassign; its callbacks and promises are not modelled. */
module Storage {
  import opened Types
  import opened Embedding

  /** The key under which the entry list is persisted. */
  const EntriesKey: string := "entries"

  /** A value held by the key/value storage: the entry list, `null`, or some
      other JSON datum (other keys of the same storage area). */
  datatype StoredValue = EntryList(entries: seq<StoredEntry>) | Null | OtherData(json: string)

  /** `data.entries || []`: the stored list, or the empty list when the key is
      absent or holds `null`. */
  function EntriesOrEmpty(items: map<string, StoredValue>): seq<StoredEntry> {
    if EntriesKey in items && items[EntriesKey].EntryList? then items[EntriesKey].entries else []
  }

  /** The storage after `addEntry` has written `e` behind the current list:
      the entry list grows by `e` at its end, and no other key changes. */
  function Appended(items: map<string, StoredValue>, e: StoredEntry): (r: map<string, StoredValue>)
    ensures EntriesKey in r && EntriesOrEmpty(r) == EntriesOrEmpty(items) + [e]
    ensures forall k :: k != EntriesKey ==> (k in r <==> k in items)
    ensures forall k :: k != EntriesKey && k in items ==> r[k] == items[k]
  {
    items[EntriesKey := EntryList(EntriesOrEmpty(items) + [e])]
  }

  /** `chrome.storage.local`. */
  class LocalStorage {
    var items: map<string, StoredValue>

    /** Only an entry list or `null` is ever found under the entries key. */
    ghost predicate Valid()
      reads this
    {
      EntriesKey in items ==> !items[EntriesKey].OtherData?
    }

    /** A fresh, empty storage area. */
    constructor ()
      ensures Valid() && items == map[]
    {
      items := map[];
    }
  }

  /** `getEntries`: the persisted list, or the empty list when nothing (or
      `null`) is stored under the key. */
  method GetEntries(storage: LocalStorage) returns (entries: seq<StoredEntry>)
    requires storage.Valid()
    ensures EntriesKey in storage.items && storage.items[EntriesKey].EntryList? ==>
      entries == storage.items[EntriesKey].entries
    ensures EntriesKey !in storage.items || storage.items[EntriesKey].Null? ==> entries == []
  {
    var data := storage.items;
    if EntriesKey in data && data[EntriesKey].EntryList? {
      entries := data[EntriesKey].entries;
    } else {
      entries := [];
    }
  }

  /** `Array.from` on the embedder's output: an element-for-element copy. */
  method CopyVector(v: Vector) returns (r: Vector)
    ensures |r| == |v| && forall i :: 0 <= i < |v| ==> r[i] == v[i]
  {
    r := [];
    for i := 0 to |v|
      invariant r == v[..i]
    {
      r := r + [v[i]];
    }
  }

  /** `addEntry`: embeds `question` with the singleton service; if that throws,
      nothing is written; otherwise the entry with the given question, answer
      and embedding is appended to the list read back from storage, and the
      extended list is written under the entries key. */
  method AddEntry(storage: LocalStorage, slot: ServiceSlot, load: LoadOutcome,
                  question: string, answer: string)
    returns (r: Result<(), EmbedError>)
    requires storage.Valid() && slot.Valid()
    modifies storage, slot, slot.instance
    ensures storage.Valid() && slot.Valid()
    ensures slot.instance != null && (old(slot.instance) != null ==> slot.instance == old(slot.instance))
    ensures old(slot.instance) == null ==> fresh(slot.instance)
    ensures
      var before := if old(slot.instance) == null then ExtractorField.Null else old(slot.instance.extractor);
      slot.instance.extractor == AfterInit(before, load) &&
      match slot.instance.extractor
      case Loaded(p) =>
        r == Success(()) &&
        storage.items == Appended(old(storage.items), StoredEntry(question, answer, p.run(question).data))
      case _ =>
        r == Failure(EmbedFailure(before, load)) && storage.items == old(storage.items)
  {
    var embeddingService := slot.GetInstance();
    var embedding := embeddingService.Embed(question, load);
    if embedding.Failure? {
      return Failure(embedding.error);
    }
    var copy := CopyVector(embedding.value);
    assert copy == embedding.value;
    var newEntry := StoredEntry(question, answer, copy);
    var existingEntries := GetEntries(storage);
    assert existingEntries == EntriesOrEmpty(storage.items);
    var updatedEntries := existingEntries + [newEntry];
    storage.items := storage.items[EntriesKey := EntryList(updatedEntries)];
    return Success(());
  }

  // ---------------------------------------------------------------------
  // Properties

  /** How many entries of `entries` are stored for question `q`. */
  function QuestionCount(entries: seq<StoredEntry>, q: string): nat {
    if |entries| == 0 then 0
    else (if entries[0].question == q then 1 else 0) + QuestionCount(entries[1..], q)
  }

  /** Counting distributes over concatenation. */
  lemma {:induction false} QuestionCountConcat(a: seq<StoredEntry>, b: seq<StoredEntry>, q: string)
    ensures QuestionCount(a + b, q) == QuestionCount(a, q) + QuestionCount(b, q)
  {
    if |a| > 0 {
      assert (a + b)[1..] == a[1..] + b;
      QuestionCountConcat(a[1..], b, q);
    } else {
      assert a + b == b;
    }
  }

  /** There is no de-duplication: saving a question that is already stored
      adds a second entry for it, and leaves every other question's count as
      it was. */
  lemma AppendNeverDeduplicates(items: map<string, StoredValue>, e: StoredEntry, q: string)
    ensures QuestionCount(EntriesOrEmpty(Appended(items, e)), q) ==
      QuestionCount(EntriesOrEmpty(items), q) + (if e.question == q then 1 else 0)
  {
    QuestionCountConcat(EntriesOrEmpty(items), [e], q);
    assert [e][1..] == [];
  }
}
