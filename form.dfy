/**
 * The form controller: the submit handler's decision, its completion step,
 * and the draft buttons and timers, acting on the three input values, the
 * duplicate-submission guard and the draft store.
 */
module Form {
  import opened Wrappers
  import opened Strings
  import opened Validation
  import opened Guard
  import opened Drafts

  datatype FieldName = NameField | EmailField | MessageField

  /** How a submit attempt ends: focus on the first invalid field, the
      duplicate warning, or the start of the (simulated) sending. */
  datatype Outcome = Rejected(focus: FieldName) | GuardBlocked | Accepted

  predicate AllValid(f: Fields) {
    ValidateName(f.name).valid && ValidateEmail(f.email).valid && ValidateMessage(f.message).valid
  }

  /** The submit handler's order of decisions, given the three verdicts and
      the guard's answer: the first invalid field in the order name, email,
      message gets the focus, and only when all three are valid does the
      guard decide between the warning and sending. */
  function Decide(nameOk: bool, emailOk: bool, messageOk: bool, blocked: bool): (o: Outcome)
    ensures o == Rejected(NameField) <==> !nameOk
    ensures o == Rejected(EmailField) <==> nameOk && !emailOk
    ensures o == Rejected(MessageField) <==> nameOk && emailOk && !messageOk
    ensures o == GuardBlocked <==> nameOk && emailOk && messageOk && blocked
    ensures o == Accepted <==> nameOk && emailOk && messageOk && !blocked
  {
    if !(nameOk && emailOk && messageOk) then
      if !nameOk then Rejected(NameField) else if !emailOk then Rejected(EmailField) else Rejected(MessageField)
    else if blocked then GuardBlocked
    else Accepted
  }

  /** With an invalid field the guard's answer does not matter: it is never
      consulted. */
  lemma GuardIrrelevantWhenInvalid(nameOk: bool, emailOk: bool, messageOk: bool, b1: bool, b2: bool)
    requires !(nameOk && emailOk && messageOk)
    ensures Decide(nameOk, emailOk, messageOk, b1) == Decide(nameOk, emailOk, messageOk, b2)
  {
  }

  /** The submit handler's decision for the current fields and guard memory:
      rejected exactly when a field is invalid, and otherwise the guard's rule
      alone decides. */
  function SubmitDecision(f: Fields, lastMessage: string, lastSubmitTime: int, now: int): (o: Outcome)
    ensures o.Rejected? <==> !AllValid(f)
    ensures o == GuardBlocked <==> AllValid(f) && Blocks(lastMessage, lastSubmitTime, f.message, now)
    ensures o == Accepted <==> AllValid(f) && !Blocks(lastMessage, lastSubmitTime, f.message, now)
  {
    Decide(ValidateName(f.name).valid, ValidateEmail(f.email).valid, ValidateMessage(f.message).valid,
           Blocks(lastMessage, lastSubmitTime, f.message, now))
  }

  /** The guard as it stands at page load never blocks a message that passes
      validation: a valid message is never the empty string. */
  lemma FreshGuardNeverBlocks(f: Fields, now: int)
    requires AllValid(f)
    ensures SubmitDecision(f, "", 0, now) == Accepted
  {
  }

  /** Once a valid message has been recorded at `t1`, the same fields are
      turned away by the guard at any `t2` less than ten seconds later. */
  lemma RepeatWithinCooldownBlocked(f: Fields, t1: int, t2: int)
    requires AllValid(f) && t2 - t1 < CooldownMs
    ensures SubmitDecision(f, Trim(f.message), t1, t2) == GuardBlocked
  {
  }

  /** End to end: a blank name is reported first, even
      with a malformed email. */
  lemma BlankNameFocusesName(lastMessage: string, lastSubmitTime: int, now: int)
    ensures SubmitDecision(Fields("", "x", "hello!"), lastMessage, lastSubmitTime, now) == Rejected(NameField)
  {
    assert AllWhitespace("");
  }

  class ContactForm {
    /** The three input values. */
    var fields: Fields
    const guard: SubmissionGuard
    const drafts: DraftStore

    /** The script starting: fresh module state over blank inputs, with
        storage holding whatever the key held from earlier sessions. The
        `load` handler's `restoreDraft` is a separate step, `RestoreDraft`,
        since the auto-save interval is already running and may fire first. */
    constructor(stored: Option<Payload>)
      ensures fresh(guard) && fresh(drafts)
      ensures guard.lastMessage == "" && guard.lastSubmitTime == 0
      ensures drafts.slot == stored && drafts.lastAuto == None
      ensures fields == Blank
    {
      guard := new SubmissionGuard();
      drafts := new DraftStore(stored);
      fields := Blank;
    }

    /** The user edits the inputs. */
    method Edit(f: Fields)
      modifies this`fields
      ensures fields == f
    {
      fields := f;
    }

    /** The submit handler. All three validators run and their results are
        shown; on failure focus goes to the first invalid field; otherwise the
        guard is consulted, and when it allows, sending starts. It changes
        nothing: neither the inputs, the guard's memory nor the storage. */
    method Submit(now: int) returns (name: ValidationResult, email: ValidationResult,
                                     message: ValidationResult, outcome: Outcome)
      ensures name == ValidateName(fields.name)
      ensures email == ValidateEmail(fields.email)
      ensures message == ValidateMessage(fields.message)
      ensures outcome == SubmitDecision(fields, guard.lastMessage, guard.lastSubmitTime, now)
    {
      var f, lm, lt := fields, guard.lastMessage, guard.lastSubmitTime;
      name := ValidateName(f.name);
      email := ValidateEmail(f.email);
      message := ValidateMessage(f.message);
      var blocked := false;
      if name.valid && email.valid && message.valid {
        var allowed := guard.Check(f.message, now);
        blocked := !allowed;
      } else {
        GuardIrrelevantWhenInvalid(name.valid, email.valid, message.valid, blocked,
                                   Blocks(lm, lt, f.message, now));
      }
      outcome := Decide(name.valid, email.valid, message.valid, blocked);
    }

    /** The completion step, when the simulated latency elapses: greets the
        sender by the trimmed name (or "there"), records the trimmed message
        and the time in the guard, and resets the inputs. It reads the inputs
        as they are at that moment. */
    method CompleteSubmission(now: int) returns (greeting: string)
      modifies this`fields, guard
      ensures greeting == if Trim(old(fields.name)) == [] then "there" else Trim(old(fields.name))
      ensures guard.lastMessage == Trim(old(fields.message)) && guard.lastSubmitTime == now
      ensures fields == Blank
    {
      var name := Trim(fields.name);
      greeting := if name == [] then "there" else name;
      guard.Record(fields.message, now);
      fields := Blank;
    }

    /** The Save Draft button (and Ctrl+S). */
    method SaveDraft(now: int)
      modifies drafts`slot
      ensures drafts.slot == Some(Parsed(Snapshot(fields, now)))
    {
      drafts.Save(fields, now);
    }

    /** The Clear Draft button: removes the draft and blanks the inputs. */
    method ClearDraft()
      modifies drafts`slot, this`fields
      ensures drafts.slot == None && fields == Blank
    {
      drafts.Clear();
      fields := Blank;
    }

    /** `restoreDraft`, run by the `load` handler. */
    method RestoreDraft()
      modifies this`fields
      ensures fields == Restored(drafts.slot, old(fields))
    {
      fields := drafts.Restore(fields);
    }

    /** The auto-save timer firing. */
    method AutoSave(now: int) returns (wrote: bool)
      modifies drafts
      ensures wrote <==> old(drafts.lastAuto) != Some(fields)
      ensures drafts.lastAuto == Some(fields)
      ensures drafts.slot == if wrote then Some(Parsed(Snapshot(fields, now))) else old(drafts.slot)
    {
      wrote := drafts.AutoSaveTick(fields, now);
    }
  }

  const SampleFields := Fields("Al", "b@c.de", "hello!")

  lemma SampleFieldsValid()
    ensures AllValid(SampleFields)
  {
    TrimUntrimmed("Al");
    TrimUntrimmed("hello!");
    EmailSampleValid();
  }

  /** End to end: the same valid message sent twice within ten
      seconds goes through once and is then turned away. */
  method DuplicateWithinCooldown(f: Fields, t: int) returns (first: Outcome, second: Outcome)
    requires AllValid(f)
    ensures first == Accepted && second == GuardBlocked
  {
    FreshGuardNeverBlocks(f, t);
    RepeatWithinCooldownBlocked(f, t + 1400, t + 5000);
    var form := new ContactForm(None);
    form.Edit(f);
    assert form.fields == f && form.guard.lastMessage == "" && form.guard.lastSubmitTime == 0;
    var _, _, _, o1 := form.Submit(t);
    first := o1;
    var _ := form.CompleteSubmission(t + 1400);
    form.Edit(f);
    assert form.fields == f && form.guard.lastMessage == Trim(f.message) && form.guard.lastSubmitTime == t + 1400;
    var _, _, _, o2 := form.Submit(t + 5000);
    second := o2;
  }

  /** Page load before the first auto-save tick: the saved draft comes back
      into the inputs. */
  method LoadBeforeFirstTick(saved: Fields, ts: int) returns (restored: Fields)
    ensures restored == saved
  {
    var form := new ContactForm(Some(Parsed(Snapshot(saved, ts))));
    form.RestoreDraft();
    RestoreAfterSave(saved, ts, Blank);
    restored := form.fields;
  }

  /** A tick that fires before `load` finds the snapshot unset, so it writes
      the still-blank inputs over the saved draft; `restoreDraft` then brings
      back blank fields, and the earlier draft is lost. */
  method TickBeforeLoad(saved: Fields, ts: int, now: int) returns (restored: Fields, slot: Option<Payload>)
    ensures slot == Some(Parsed(Snapshot(Blank, now)))
    ensures restored == Blank
  {
    var form := new ContactForm(Some(Parsed(Snapshot(saved, ts))));
    var _ := form.AutoSave(now);
    form.RestoreDraft();
    restored := form.fields;
    slot := form.drafts.slot;
  }

  /** After Clear Draft the key is empty; a later tick may write again, but
      only the blank inputs, so a restore then yields blank fields. */
  method ClearThenTick(form: ContactForm, now: int) returns (restored: Fields)
    modifies form, form.drafts
    ensures form.drafts.slot.None? || form.drafts.slot == Some(Parsed(Snapshot(Blank, now)))
    ensures restored == Blank
  {
    form.ClearDraft();
    var _ := form.AutoSave(now);
    restored := form.drafts.Restore(form.fields);
  }

  /** Clearing does not reset the auto-save snapshot: when the inputs are
      cleared and then retyped to what the last tick wrote, the next tick
      writes nothing and the key stays empty. */
  method RetypeAfterClear(form: ContactForm, now: int) returns (wrote: bool)
    requires form.drafts.lastAuto.Some?
    modifies form, form.drafts
    ensures !wrote && form.drafts.slot.None?
  {
    var typed := form.drafts.lastAuto.value;
    form.ClearDraft();
    form.Edit(typed);
    wrote := form.AutoSave(now);
  }
}
