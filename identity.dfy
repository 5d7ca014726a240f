/**
 * Identity bootstrap: the per-browser user id kept in durable storage under
 * the key `violet_user_id`, generated once when the stored entry is missing.
 */
module Identity {
  import opened Wrappers
  import JsText

  /** What the browser offers as an id generator: `crypto.randomUUID()` when it exists,
      otherwise the composite of the clock (`Date.now()`) and `Math.random()`, the latter
      kept as the string JavaScript renders it to. */
  datatype IdSource = RandomUuid(uuid: string) | TimeAndRandom(nowMillis: nat, random: string)

  /** `randomUUID` always yields the 36-character textual form of a UUID. */
  predicate WellFormedSource(src: IdSource) {
    src.RandomUuid? ==> |src.uuid| == 36
  }

  /** The freshly generated id. */
  function GeneratedId(src: IdSource): (id: string)
    ensures WellFormedSource(src) ==> id != ""
    ensures src.TimeAndRandom? ==> "u_" <= id && |id| >= |src.random| + 4
  {
    match src
    case RandomUuid(u) => u
    case TimeAndRandom(t, r) => "u_" + JsText.DecimalDigits(t) + "_" + r
  }

  /** A stored entry is used only when it is truthy: present and not the empty string. */
  predicate HasStoredId(stored: Option<string>) {
    stored.Some? && stored.value != ""
  }

  /** The id the bootstrap settles on, and the storage entry afterwards. */
  function Bootstrap(stored: Option<string>, src: IdSource): (r: (string, Option<string>))
  {
    if HasStoredId(stored) then (stored.value, stored) else (GeneratedId(src), Some(GeneratedId(src)))
  }

  lemma StoredIdIsKept(stored: Option<string>, src: IdSource)
    requires HasStoredId(stored)
    ensures Bootstrap(stored, src) == (stored.value, stored)
  {
  }

  lemma MissingIdIsGeneratedAndStored(stored: Option<string>, src: IdSource)
    requires !HasStoredId(stored)
    ensures Bootstrap(stored, src).0 == GeneratedId(src)
    ensures Bootstrap(stored, src).1 == Some(GeneratedId(src))
  {
  }

  /** The id is never empty once the generator is well formed. */
  lemma BootstrapIdNonEmpty(stored: Option<string>, src: IdSource)
    requires WellFormedSource(src)
    ensures Bootstrap(stored, src).0 != ""
  {
  }

  /** A second bootstrap against the storage the first one left returns the identical id
      and writes nothing, whatever the generator would produce the second time. */
  lemma SecondBootstrapReturnsSameId(stored: Option<string>, first: IdSource, second: IdSource)
    requires WellFormedSource(first)
    ensures Bootstrap(Bootstrap(stored, first).1, second) == Bootstrap(stored, first)
  {
  }

  /** The durable storage entry under the key `violet_user_id`. */
  class UserIdStore {
    var entry: Option<string>

    constructor (entry: Option<string>)
      ensures this.entry == entry
    {
      this.entry := entry;
    }

    /** Read the stored id; when it is missing, generate one and store it. */
    method GetOrCreateUserId(src: IdSource) returns (id: string)
      modifies this
      ensures (id, entry) == Bootstrap(old(entry), src)
      ensures HasStoredId(old(entry)) ==> id == old(entry).value && entry == old(entry)
    {
      var stored := entry;
      if stored.Some? && stored.value != "" {
        id := stored.value;
      } else {
        id := GeneratedId(src);
        entry := Some(id);
      }
    }
  }
}
