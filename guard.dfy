/**
 * The duplicate-submission guard: the module state `lastMessage` and
 * `lastSubmitTime`, which turn away the same trimmed message sent again
 * within ten seconds of the last completed submission.
 */
module Guard {
  import opened Strings

  /** The cooldown window, in milliseconds. */
  const CooldownMs := 10000

  /** The guard's rule: the candidate is turned away when its trimmed text is
      the last completed message and fewer than 10000 ms have passed since. */
  predicate Blocks(lastMessage: string, lastSubmitTime: int, candidate: string, now: int)
    // with nothing recorded yet, only a blank candidate can be turned away
    ensures lastMessage == "" ==>
              (Blocks(lastMessage, lastSubmitTime, candidate, now) <==>
                 AllWhitespace(candidate) && now - lastSubmitTime < CooldownMs)
  {
    Trim(candidate) == lastMessage && now - lastSubmitTime < CooldownMs
  }

  class SubmissionGuard {
    var lastMessage: string
    var lastSubmitTime: int

    /** Page load: `lastMessage = ''`, `lastSubmitTime = 0`. */
    constructor()
      ensures lastMessage == "" && lastSubmitTime == 0
    {
      lastMessage := "";
      lastSubmitTime := 0;
    }

    /** The check made in the submit handler; it changes nothing. */
    method Check(candidate: string, now: int) returns (allowed: bool)
      ensures allowed <==> !Blocks(lastMessage, lastSubmitTime, candidate, now)
      ensures allowed <==> Trim(candidate) != lastMessage || now - lastSubmitTime >= CooldownMs
    {
      allowed := !(Trim(candidate) == lastMessage && now - lastSubmitTime < CooldownMs);
    }

    /** The completion step stores the trimmed message and the time. */
    method Record(message: string, now: int)
      modifies this
      ensures lastMessage == Trim(message) && lastSubmitTime == now
    {
      lastMessage := Trim(message);
      lastSubmitTime := now;
    }
  }

  /** After a message is recorded at `t`, the same message (whatever its
      surrounding whitespace) is blocked until `t + 10000` and allowed from
      then on, and any message with different trimmed text is allowed. */
  lemma CooldownWindow(message: string, t: int, candidate: string, now: int)
    ensures Trim(candidate) == Trim(message) ==>
              (Blocks(Trim(message), t, candidate, now) <==> now < t + CooldownMs)
    ensures Trim(candidate) != Trim(message) ==> !Blocks(Trim(message), t, candidate, now)
  {
  }

  /** Sample cases, for a message recorded at `t`. */
  lemma CooldownSamples(t: int)
    ensures Blocks("hello", t, "hello", t + 5000)
    ensures !Blocks("hello", t, "hello", t + 11000)
    ensures !Blocks("hello", t, "different", t + 1)
  {
    TrimUntrimmed("hello");
    TrimUntrimmed("different");
  }
}
