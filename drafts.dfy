/**
 * Draft persistence under the single storage key `contact_form_draft_v1`:
 * explicit save and clear, restore at page load, and the eight-second
 * auto-save that writes only when the fields changed since its last write.
 */
module Drafts {
  import opened Wrappers

  /** The storage key all draft operations use. */
  const DraftKey := "contact_form_draft_v1"

  /** The values of the three inputs. */
  datatype Fields = Fields(name: string, email: string, message: string)

  const Blank := Fields("", "", "")

  /** A parsed draft object. A property that is missing, or falsy and not a
      string, is `None`; a string property, `''` included, is `Some` of it;
      any other value is the string the input would show for it. Both `None`
      and `Some("")` restore as `''`. */
  datatype DraftRecord = DraftRecord(
    name: Option<string>, email: Option<string>, message: Option<string>, ts: Option<int>)

  /** What the storage key holds: a parsed object, or text that `JSON.parse`
      rejects (or parses to `null`, on which reading `.name` throws). */
  datatype Payload = Parsed(record: DraftRecord) | Unparsable

  /** The record `saveDraftToLocal` and the auto-save write. */
  function Snapshot(f: Fields, now: int): DraftRecord {
    DraftRecord(Some(f.name), Some(f.email), Some(f.message), Some(now))
  }

  /** The fields after `restoreDraft` runs on `slot` with the inputs holding
      `current`: nothing stored or an unparsable payload leaves them as they
      are; otherwise each takes its stored value, or `''` when missing. */
  function Restored(slot: Option<Payload>, current: Fields): Fields {
    match slot
    case None => current
    case Some(Unparsable) => current
    case Some(Parsed(p)) => Fields(p.name.GetOr(""), p.email.GetOr(""), p.message.GetOr(""))
  }

  /** A saved draft restores to exactly the saved fields, whatever the
      inputs held. */
  lemma RestoreAfterSave(f: Fields, now: int, current: Fields)
    ensures Restored(Some(Parsed(Snapshot(f, now))), current) == f
  {
  }

  /** With no draft, or a corrupt one, restoring changes nothing. */
  lemma RestoreWithoutDraft(current: Fields)
    ensures Restored(None, current) == current
    ensures Restored(Some(Unparsable), current) == current
  {
  }

  /** A parsed draft replaces all three fields, with `''` for every missing
      one; the inputs' previous values never survive. */
  lemma RestoreParsed(p: DraftRecord, current: Fields)
    ensures Restored(Some(Parsed(p)), current).name == (if p.name.Some? then p.name.value else "")
    ensures Restored(Some(Parsed(p)), current).email == (if p.email.Some? then p.email.value else "")
    ensures Restored(Some(Parsed(p)), current).message == (if p.message.Some? then p.message.value else "")
  {
  }

  class DraftStore {
    /** The value under `DraftKey`. */
    var slot: Option<Payload>
    /** The snapshot the auto-save last wrote (`None` is the initial `''`,
        which no serialized snapshot equals). */
    var lastAuto: Option<Fields>

    /** Page load, with whatever the key held from earlier sessions. */
    constructor(stored: Option<Payload>)
      ensures slot == stored && lastAuto == None
    {
      slot := stored;
      lastAuto := None;
    }

    /** `saveDraftToLocal`: overwrites the key with the current fields. */
    method Save(f: Fields, now: int)
      modifies this`slot
      ensures slot == Some(Parsed(Snapshot(f, now)))
    {
      slot := Some(Parsed(Snapshot(f, now)));
    }

    /** `clearDraftFromLocal`'s storage half: removes the key; idempotent. */
    method Clear()
      modifies this`slot
      ensures slot == None
    {
      slot := None;
    }

    /** `restoreDraft`'s read: the fields the inputs hold afterwards. */
    method Restore(current: Fields) returns (f: Fields)
      ensures f == Restored(slot, current)
      ensures slot.None? || slot == Some(Unparsable) ==> f == current
    {
      match slot
      case None =>
        f := current;
      case Some(Unparsable) =>
        f := current;
      case Some(Parsed(p)) =>
        f := Fields(p.name.GetOr(""), p.email.GetOr(""), p.message.GetOr(""));
    }

    /** The auto-save tick: writes iff the fields differ from the snapshot of
        its last write, and then remembers them. */
    method AutoSaveTick(f: Fields, now: int) returns (wrote: bool)
      modifies this
      ensures wrote <==> old(lastAuto) != Some(f)
      ensures lastAuto == Some(f)
      ensures slot == if wrote then Some(Parsed(Snapshot(f, now))) else old(slot)
    {
      wrote := lastAuto != Some(f);
      if wrote {
        lastAuto := Some(f);
        slot := Some(Parsed(Snapshot(f, now)));
      }
    }
  }

  /** Two ticks with unchanged fields write once: the second is a no-op. */
  method TickTwice(store: DraftStore, f: Fields, t1: int, t2: int) returns (first: bool, second: bool)
    modifies store
    ensures !second
    ensures store.slot == if first then Some(Parsed(Snapshot(f, t1))) else old(store.slot)
  {
    first := store.AutoSaveTick(f, t1);
    second := store.AutoSaveTick(f, t2);
  }
}
