/**
 * Progress reporting shared by the uploaders: a log that collects messages
 * and a counter that writes one padded progress line per transferred part.
 */
module Common {

  import opened Wrappers
  import opened Text

  /** An `ILog` provider, reduced to the messages passed to `msg`, oldest first. */
  class Log {
    var messages: seq<string>

    constructor ()
      ensures messages == []
    {
      messages := [];
    }

    method Msg(m: string)
      modifies this
      ensures messages == old(messages) + [m]
    {
      messages := messages + [m];
    }
  }

  /** The total a counter reports against: a part count, or `'?'` when the length is unknown. */
  datatype Expected = Known(count: nat) | Unknown

  /** `'%s' % expected`. */
  function ExpectedText(e: Expected): (s: string)
    ensures e.Unknown? <==> s == "?"
  {
    match e
    case Known(n) => NatToString(n)
    case Unknown => "?"
  }

  /** `('transferred', 'received')[receiving]`. */
  function Verb(receiving: bool): string {
    if receiving then "received" else "transferred"
  }

  /** `'%d/%s' % (completed, expected)`. */
  function CountText(completed: nat, expected: Expected): string {
    NatToString(completed) + ("/" + ExpectedText(expected))
  }

  /** `'%s%s parts ' % (context, verb)`. */
  function Lead(context: string, receiving: bool): string {
    context + Verb(receiving) + " parts "
  }

  /** The text before the padding: `'%s%s parts %d/%s' % (context, verb, completed, expected)`. */
  function ProgressText(context: string, receiving: bool, completed: nat, expected: Expected): string {
    Lead(context, receiving) + CountText(completed, expected)
  }

  /**
   * The line `increment_count` logs: the progress text left-justified in 40
   * columns, a space, and a carriage return when formatting for a terminal.
   */
  function ProgressMessage(context: string, receiving: bool, completed: nat, expected: Expected, forStdout: bool): string {
    PadRight(ProgressText(context, receiving, completed, expected), 40) + " " + (if forStdout then "\r" else "")
  }

  /**
   * The progress line starts with the progress text, is padded with spaces
   * to at least 40 characters, never truncated, and ends with a space and,
   * for a terminal, a carriage return.
   */
  lemma ProgressMessageLayout(context: string, receiving: bool, completed: nat, expected: Expected, forStdout: bool)
    ensures var text, msg := ProgressText(context, receiving, completed, expected),
                             ProgressMessage(context, receiving, completed, expected, forStdout);
      var width := if |text| < 40 then 40 else |text|;
      && msg[..|text|] == text
      && |msg| == width + 1 + (if forStdout then 1 else 0)
      && (forall i :: |text| <= i <= width ==> msg[i] == ' ')
      && (forStdout ==> msg[|msg| - 1] == '\r')
  {
    var text := ProgressText(context, receiving, completed, expected);
    var padded := PadRight(text, 40);
    var msg := padded + " " + (if forStdout then "\r" else "");
    assert msg[..|text|] == padded[..|text|];
  }

  /** The progress text names the context, then the verb, then `completed/expected` after ` parts `. */
  lemma ProgressTextLayout(context: string, receiving: bool, completed: nat, expected: Expected)
    ensures var text, at := ProgressText(context, receiving, completed, expected), |context| + |Verb(receiving)| + 7;
      && |text| == at + |CountText(completed, expected)|
      && text[..|context|] == context
      && text[|context|..at] == Verb(receiving) + " parts "
      && text[at..] == CountText(completed, expected)
  {
    var text, lead := ProgressText(context, receiving, completed, expected), Lead(context, receiving);
    assert text[..|lead|] == lead && text[|lead|..] == CountText(completed, expected);
    assert lead[..|context|] == context && lead[|context|..] == Verb(receiving) + " parts ";
  }

  /** `completed/expected` holds digits, a slash and digits or `?`: no spaces. */
  lemma CountTextHasNoSpace(completed: nat, expected: Expected)
    ensures forall i :: 0 <= i < |CountText(completed, expected)| ==> CountText(completed, expected)[i] != ' '
  {
    var sm, e := NatToString(completed), ExpectedText(expected);
    var count := CountText(completed, expected);
    forall i | 0 <= i < |count| ensures count[i] != ' ' {
      if i < |sm| {
        assert count[i] == sm[i];
      } else if i > |sm| {
        assert count[i] == e[i - |sm| - 1];
        if expected.Known? {
          assert IsDigit(e[i - |sm| - 1]);
        }
      }
    }
  }

  /** After the lead, the progress text holds digits, a slash and a digit or `?`: no spaces. */
  lemma CountHasNoSpace(context: string, receiving: bool, completed: nat, expected: Expected)
    ensures var text, at := ProgressText(context, receiving, completed, expected), |context| + |Verb(receiving)| + 7;
      forall i :: at <= i < |text| ==> text[i] != ' '
  {
    var text, at := ProgressText(context, receiving, completed, expected), |context| + |Verb(receiving)| + 7;
    ProgressTextLayout(context, receiving, completed, expected);
    CountTextHasNoSpace(completed, expected);
    forall i | at <= i < |text| ensures text[i] != ' ' {
      assert text[i] == CountText(completed, expected)[i - at];
    }
  }

  /**
   * If a space follows text `a` in a line that starts with text `b`, and `b`
   * has no space from `at` on, then `b` is no longer than `a`.
   */
  lemma EndsBeforeSpace(msg: string, a: string, b: string, at: int)
    requires 0 <= at <= |a| < |msg| && msg[|a|] == ' '
    requires |b| <= |msg| && msg[..|b|] == b
    requires forall i :: at <= i < |b| ==> b[i] != ' '
    ensures |b| <= |a|
  {
    forall i | at <= i < |b| ensures msg[i] != ' ' {
      assert msg[i] == msg[..|b|][i];
    }
  }

  /** Different counts give different progress lines. */
  lemma ProgressMessageDistinguishesCounts(context: string, receiving: bool, m: nat, n: nat, expected: Expected, forStdout: bool)
    requires ProgressMessage(context, receiving, m, expected, forStdout)
          == ProgressMessage(context, receiving, n, expected, forStdout)
    ensures m == n
  {
    var a, b := ProgressText(context, receiving, m, expected), ProgressText(context, receiving, n, expected);
    var msg := ProgressMessage(context, receiving, m, expected, forStdout);
    var at := |context| + |Verb(receiving)| + 7;
    ProgressMessageLayout(context, receiving, m, expected, forStdout);
    ProgressMessageLayout(context, receiving, n, expected, forStdout);
    ProgressTextLayout(context, receiving, m, expected);
    ProgressTextLayout(context, receiving, n, expected);
    CountHasNoSpace(context, receiving, m, expected);
    CountHasNoSpace(context, receiving, n, expected);
    EndsBeforeSpace(msg, a, b, at);
    EndsBeforeSpace(msg, b, a, at);
    assert a == msg[..|a|] == b;
    var sm, sn, tail := NatToString(m), NatToString(n), "/" + ExpectedText(expected);
    assert sm + tail == CountText(m, expected) == a[at..] == b[at..] == CountText(n, expected) == sn + tail;
    assert sm == (sm + tail)[..|sm|] && sn == (sn + tail)[..|sn|];
    NatToStringInjective(m, n);
  }

  /**
   * `BaseCounter(expected)` with its `ProgressLoggerMixin` log. `receiving`
   * is `None` until a subclass or caller sets it.
   */
  class BaseCounter {
    var completed: nat
    var expected: Expected
    var receiving: Option<bool>
    var context: string
    var formatForStdout: bool
    var log: Log

    /** A counter at 0 reporting to `log`, the module-level default log. */
    constructor (expected: Expected, log: Log)
      ensures this.expected == expected && this.log == log
      ensures completed == 0 && receiving == None && context == "" && formatForStdout
    {
      completed := 0;
      this.expected := expected;
      receiving := None;
      context := "";
      formatForStdout := true;
      this.log := log;
    }

    /** `set_log(log)`: `None` keeps the current log. */
    method SetLog(newLog: Option<Log>)
      modifies this
      ensures newLog.None? ==> log == old(log)
      ensures newLog.Some? ==> log == newLog.value
      ensures completed == old(completed) && expected == old(expected) && receiving == old(receiving)
      ensures context == old(context) && formatForStdout == old(formatForStdout)
    {
      if newLog.None? {
        return;
      }
      log := newLog.value;
    }

    /**
     * `increment_count()`: one more part done, and exactly one progress line
     * logged. With `receiving` unset the verb lookup raises after the count
     * has been raised, so nothing is logged and `ok` is false.
     */
    method IncrementCount() returns (ok: bool)
      modifies this, log
      ensures ok <==> receiving.Some?
      ensures completed == old(completed) + 1
      ensures ok ==>
        log.messages == old(log.messages) + [ProgressMessage(context, receiving.value, completed, expected, formatForStdout)]
      ensures !ok ==> log.messages == old(log.messages)
      ensures log == old(log) && expected == old(expected) && receiving == old(receiving)
      ensures context == old(context) && formatForStdout == old(formatForStdout)
    {
      completed := completed + 1;
      if receiving.None? {
        return false;
      }
      var verb := Verb(receiving.value);
      var cr := if formatForStdout then "\r" else "";
      var text := context + verb + " parts " + (NatToString(completed) + ("/" + ExpectedText(expected)));
      log.Msg(PadRight(text, 40) + " " + cr);
      ok := true;
    }
  }

  lemma CountExample()
    ensures CountText(1, Known(365)) == "1/365"
  {
    assert NatToString(365) == "365" by {
      assert NatToString(36) == "36" by {
        assert NatToString(3) == "3";
      }
    }
    assert NatToString(1) == "1";
  }

  /** The line the unit tests expect after one increment of a receiving counter expecting 365 parts. */
  lemma ReceivedExample()
    ensures ProgressMessage("", true, 1, Known(365), true) == "received parts 1/365                     \r"
  {
    CountExample();
    assert ProgressText("", true, 1, Known(365)) == "received parts 1/365";
  }

  /** The same for a sending counter. */
  lemma TransferredExample()
    ensures ProgressMessage("", false, 1, Known(365), true) == "transferred parts 1/365                  \r"
  {
    CountExample();
    assert ProgressText("", false, 1, Known(365)) == "transferred parts 1/365";
  }

  /** And for a receiving counter that does not format for a terminal. */
  lemma NotForStdoutExample()
    ensures ProgressMessage("", true, 1, Known(365), false) == "received parts 1/365                     "
  {
    CountExample();
    assert ProgressText("", true, 1, Known(365)) == "received parts 1/365";
  }

  /**
   * Three increments of a receiving counter expecting 365 parts log three
   * lines, reporting 1/365, 2/365 and 3/365 in turn.
   */
  method IncrementingScenario() returns (messages: seq<string>)
    ensures messages == [ProgressMessage("", true, 1, Known(365), true),
                         ProgressMessage("", true, 2, Known(365), true),
                         ProgressMessage("", true, 3, Known(365), true)]
  {
    var log := new Log();
    var counter := new BaseCounter(Known(365), log);
    counter.receiving := Some(true);
    var ok := counter.IncrementCount();
    assert log.messages == [ProgressMessage("", true, 1, Known(365), true)];
    ok := counter.IncrementCount();
    assert log.messages == [ProgressMessage("", true, 1, Known(365), true),
                            ProgressMessage("", true, 2, Known(365), true)];
    ok := counter.IncrementCount();
    messages := log.messages;
  }
}
