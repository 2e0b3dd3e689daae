/**
 * The figures the form recomputes on every edit: the character budget left
 * for the message and the completion percentage shown by the progress bar.
 */
module Metrics {
  import opened Strings

  /** The message length the budget counts down from. */
  const MessageBudget := 250

  /** `updateCharCount`: the characters left in the budget, counted on the
      untrimmed message and not clamped, so it goes negative past the limit. */
  function CharsRemaining(message: string): (left: int)
    ensures left + |message| == MessageBudget
    ensures left <= MessageBudget
    ensures left == MessageBudget <==> message == []
    ensures left < 0 <==> |message| > MessageBudget
  {
    MessageBudget - |message|
  }

  /** Sample values: 250 for an empty message, -10 for 260 characters. */
  lemma CharsRemainingSamples()
    ensures CharsRemaining("") == 250
    ensures CharsRemaining(seq(260, _ => 'x')) == -10
  {
  }

  /** Points the trimmed message length earns: `min(40, floor(len / 250 * 40))`. */
  function MessagePoints(len: nat): (p: nat)
    ensures p <= 40
  {
    var scaled := len * 40 / MessageBudget;
    if scaled < 40 then scaled else 40
  }

  /** The message share grows with its length, is full exactly from 250
      characters on, and is still nothing for up to 6 characters. */
  lemma MessagePointsShape(a: nat, b: nat)
    ensures a <= b ==> MessagePoints(a) <= MessagePoints(b)
    ensures MessagePoints(a) == 40 <==> a >= MessageBudget
    ensures MessagePoints(a) == 0 <==> a < 7
  {
  }

  /** `updateProgress`: 30 points for a non-blank name, 30 for a non-blank
      email, and up to 40 for the trimmed message length; always 0..100. */
  method UpdateProgress(name: string, email: string, message: string) returns (score: int)
    ensures 0 <= score <= 100
    ensures score == (if Trim(name) != [] then 30 else 0)
                   + (if Trim(email) != [] then 30 else 0)
                   + MessagePoints(|Trim(message)|)
    ensures score == 100 <==> Trim(name) != [] && Trim(email) != [] && |Trim(message)| >= MessageBudget
    ensures score == 0 <==> Trim(name) == [] && Trim(email) == [] && |Trim(message)| < 7
  {
    score := 0;
    if |Trim(name)| > 0 {
      score := score + 30;
    }
    if |Trim(email)| > 0 {
      score := score + 30;
    }
    var scaled := |Trim(message)| * 40 / MessageBudget;
    score := score + (if scaled < 40 then scaled else 40);
    MessagePointsShape(|Trim(message)|, |Trim(message)|);
  }

  /** Sample scores: 0 for three blank fields; 100 for a one-letter
      name, an address and a 250-character message (the score rewards filled
      fields, not valid ones). */
  method ProgressSamples() returns (none: int, full: int)
    ensures none == 0 && full == 100
  {
    none := UpdateProgress("", "", "");
    var long := seq(250, _ => 'x');
    TrimUntrimmed("A");
    TrimUntrimmed("b@c.de");
    TrimUntrimmed(long);
    full := UpdateProgress("A", "b@c.de", long);
  }
}
