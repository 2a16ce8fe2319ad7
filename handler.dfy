/** The response handler `callback`: it walks the response's fields, builds
    the metric line of each relevant field or nested entry, hands each line
    to the sender as soon as it is built, and ends the process with exit
    code 1 at the first line the sender rejects. */
module Handler {
  import opened Values
  import opened AllowList
  import opened Metrics
  import opened MetricLines

  /** A decoded device response: `data['msg']` and the items of `data['data']`. */
  datatype Response = Response(msg: string, data: seq<Field>)

  /** How the handler ends: it returns to the device client, or it ends the
      process through `sys.exit(code)`. */
  datatype Outcome = Returned | Exited(code: int)

  /** The lines handed to the sender, in order, and how the handler ended. */
  datatype Trace = Trace(sent: seq<string>, outcome: Outcome)

  /** `t` preceded by lines that were already sent and accepted. */
  function After(sent: seq<string>, t: Trace): Trace
  {
    Trace(sent + t.sent, t.outcome)
  }

  /** The specification of fail-fast submission: lines are sent one at a
      time, each with the sender's exit status `send(line)`, and the first
      nonzero status ends the process with code 1. */
  function Submission(lines: seq<string>, send: string -> int): Trace
  {
    if lines == [] then Trace([], Returned)
    else if send(lines[0]) != 0 then Trace([lines[0]], Exited(1))
    else After([lines[0]], Submission(lines[1..], send))
  }

  predicate AllAccepted(lines: seq<string>, send: string -> int)
  {
    forall k :: 0 <= k < |lines| ==> send(lines[k]) == 0
  }

  /** Submission sends a prefix of the lines. */
  lemma {:induction false} SubmissionPrefix(lines: seq<string>, send: string -> int)
    ensures var t := Submission(lines, send);
      |t.sent| <= |lines| && t.sent == lines[..|t.sent|]
    decreases |lines|
  {
    if lines != [] && send(lines[0]) == 0 {
      SubmissionPrefix(lines[1..], send);
      var t := Submission(lines[1..], send);
      assert lines[..1 + |t.sent|] == [lines[0]] + lines[1..][..|t.sent|];
    }
  }

  /** Every line before the last one was accepted. */
  predicate AcceptedBeforeLast(sent: seq<string>, send: string -> int)
  {
    forall k :: 0 <= k < |sent| - 1 ==> send(sent[k]) == 0
  }

  /** Every sent line before the last one was accepted. */
  lemma {:induction false} SubmissionAcceptedBefore(lines: seq<string>, send: string -> int)
    ensures AcceptedBeforeLast(Submission(lines, send).sent, send)
    decreases |lines|
  {
    if lines != [] && send(lines[0]) == 0 {
      SubmissionAcceptedBefore(lines[1..], send);
      var t := Submission(lines[1..], send);
      var s := [lines[0]] + t.sent;
      assert Submission(lines, send).sent == s;
      forall k | 0 <= k < |s| - 1
        ensures send(s[k]) == 0
      {
        if k > 0 {
          assert s[k] == t.sent[k - 1];
        }
      }
    }
  }

  /** The handler returns exactly when the sender accepts every line, and
      then every line was sent. */
  lemma {:induction false} SubmissionReturns(lines: seq<string>, send: string -> int)
    ensures var t := Submission(lines, send);
      (t.outcome == Returned <==> AllAccepted(lines, send))
      && (t.outcome == Returned ==> t.sent == lines)
    decreases |lines|
  {
    if lines != [] && send(lines[0]) == 0 {
      SubmissionReturns(lines[1..], send);
      assert lines == [lines[0]] + lines[1..];
      if AllAccepted(lines[1..], send) {
        forall k | 0 <= k < |lines|
          ensures send(lines[k]) == 0
        {
          if k > 0 {
            assert lines[k] == lines[1..][k - 1];
          }
        }
      }
      if AllAccepted(lines, send) {
        forall k | 0 <= k < |lines| - 1
          ensures send(lines[1..][k]) == 0
        {
          assert lines[1..][k] == lines[k + 1];
        }
      }
    }
  }

  /** Otherwise the process exits with code 1 right after a rejected line. */
  lemma {:induction false} SubmissionExits(lines: seq<string>, send: string -> int)
    ensures var t := Submission(lines, send);
      t.outcome != Returned ==>
        t.outcome == Exited(1) && |t.sent| >= 1 && send(t.sent[|t.sent| - 1]) != 0
    decreases |lines|
  {
    if lines != [] && send(lines[0]) == 0 {
      SubmissionExits(lines[1..], send);
    }
  }

  /** If line `k` is the first one the sender rejects, lines `0..k` are sent,
      nothing after `k` is, and the process exits with code 1. */
  lemma {:induction false} SubmissionStopsAt(lines: seq<string>, send: string -> int, k: nat)
    requires k < |lines| && AllAccepted(lines[..k], send) && send(lines[k]) != 0
    ensures Submission(lines, send) == Trace(lines[..k + 1], Exited(1))
    decreases k
  {
    if k > 0 {
      assert lines[..k][0] == lines[0];
      assert lines[1..][..k - 1] == lines[..k][1..];
      SubmissionStopsAt(lines[1..], send, k - 1);
      assert [lines[0]] + lines[1..][..k] == lines[..k + 1];
    }
  }

  lemma SubmissionStep(line: string, later: seq<string>, send: string -> int)
    ensures Submission([line] + later, send) ==
      if send(line) != 0 then Trace([line], Exited(1)) else After([line], Submission(later, send))
  {
    assert ([line] + later)[1..] == later;
  }

  lemma AfterAfter(sent: seq<string>, line: string, t: Trace)
    ensures After(sent, After([line], t)) == After(sent + [line], t)
  {
  }

  lemma KnownLines(msg: string, data: seq<Field>)
    requires msg in RelevantFields
    ensures Lines(msg, data) == Format(msg, Collect(msg, AllowedNames(msg), data))
  {
  }

  /** The lines from field `i` on: those of field `i`, then those after it. */
  lemma FieldStep(msg: string, names: seq<string>, data: seq<Field>, i: nat)
    requires i < |data|
    ensures Format(msg, Collect(msg, names, data[i..])) ==
      Format(msg, FieldMetrics(msg, names, data[i])) + Format(msg, Collect(msg, names, data[i + 1..]))
  {
    assert data[i..][1..] == data[i + 1..];
    FormatAppend(msg, FieldMetrics(msg, names, data[i]), Collect(msg, names, data[i + 1..]));
  }

  /** The lines from nested entry `j` on: the line of entry `j`, then the rest. */
  lemma NestedStep(msg: string, outer: string, entries: seq<Field>, j: nat, rest: seq<string>)
    requires j < |entries|
    ensures Format(msg, NestedMetrics(outer, entries[j..])) + rest ==
      [Line(msg, Metric(outer + "__" + entries[j].name, Normalize(entries[j].name, entries[j].value)))]
      + (Format(msg, NestedMetrics(outer, entries[j + 1..])) + rest)
  {
    assert entries[j..][1..] == entries[j + 1..];
  }

  /** Sending the line of nested entry `j` continues the trace `all`: it ends
      there when the sender rejects the line, and goes on with entry `j + 1`
      otherwise. */
  lemma NestedAdvance(all: Trace, sent: seq<string>, msg: string, outer: string, entries: seq<Field>,
                      j: nat, rest: seq<string>, send: string -> int)
    requires j < |entries|
    requires all == After(sent, Submission(Format(msg, NestedMetrics(outer, entries[j..])) + rest, send))
    ensures var line := Line(msg, Metric(outer + "__" + entries[j].name, Normalize(entries[j].name, entries[j].value)));
      if send(line) != 0 then all == Trace(sent + [line], Exited(1))
      else all == After(sent + [line], Submission(Format(msg, NestedMetrics(outer, entries[j + 1..])) + rest, send))
  {
    var line := Line(msg, Metric(outer + "__" + entries[j].name, Normalize(entries[j].name, entries[j].value)));
    var later := Format(msg, NestedMetrics(outer, entries[j + 1..])) + rest;
    NestedStep(msg, outer, entries, j, rest);
    SubmissionStep(line, later, send);
    AfterAfter(sent, line, Submission(later, send));
  }

  /** Sending the line of a flat field continues the trace `all` in the same way. */
  lemma FlatAdvance(all: Trace, sent: seq<string>, line: string, rest: seq<string>, send: string -> int)
    requires all == After(sent, Submission([line] + rest, send))
    ensures if send(line) != 0 then all == Trace(sent + [line], Exited(1))
      else all == After(sent + [line], Submission(rest, send))
  {
    SubmissionStep(line, rest, send);
    AfterAfter(sent, line, Submission(rest, send));
  }

  /** The nested loop: sends the line of every entry of the mapping-valued
      field `outer`, in order, and stops at the first rejected line. The
      trace `all` of the whole response continues with `rest` afterwards. */
  method SendEntries(msg: string, outer: string, entries: seq<Field>, send: string -> int,
                     sent0: seq<string>, ghost rest: seq<string>, ghost all: Trace)
    returns (sent: seq<string>, stopped: bool)
    requires all == After(sent0, Submission(Format(msg, NestedMetrics(outer, entries)) + rest, send))
    ensures if stopped then all == Trace(sent, Exited(1)) else all == After(sent, Submission(rest, send))
  {
    sent, stopped := sent0, false;
    assert entries[0..] == entries;
    var j := 0;
    while j < |entries|
      invariant 0 <= j <= |entries|
      invariant all == After(sent, Submission(Format(msg, NestedMetrics(outer, entries[j..])) + rest, send))
    {
      var nestedName, nestedValue := entries[j].name, entries[j].value;
      var line := Line(msg, Metric(outer + "__" + nestedName, Normalize(nestedName, nestedValue)));
      NestedAdvance(all, sent, msg, outer, entries, j, rest, send);
      sent := sent + [line];
      if send(line) != 0 {
        stopped := true;
        return;
      }
      j := j + 1;
    }
    assert entries[j..] == [] && [] + rest == rest;
  }

  /** The body of the outer loop for one field: skips a field outside the
      allow-list of a flat type and a non-mapping field of `UPDATE_VIEW_INFO`,
      expands the entries of a mapping-valued one, and sends the line of an
      allowed flat field. */
  method SendField(msg: string, names: seq<string>, field: Field, send: string -> int,
                   sent0: seq<string>, ghost rest: seq<string>, ghost all: Trace)
    returns (sent: seq<string>, stopped: bool)
    requires all == After(sent0, Submission(Format(msg, FieldMetrics(msg, names, field)) + rest, send))
    ensures if stopped then all == Trace(sent, Exited(1)) else all == After(sent, Submission(rest, send))
  {
    sent, stopped := sent0, false;
    var name, value := field.name, field.value;
    if name !in names && msg != UpdateViewInfo {
      assert Format(msg, FieldMetrics(msg, names, field)) + rest == rest;
      return;
    }
    if msg == UpdateViewInfo {
      if value.VMap? {
        sent, stopped := SendEntries(msg, name, value.entries, send, sent0, rest, all);
      } else {
        assert Format(msg, FieldMetrics(msg, names, field)) + rest == rest;
      }
    } else {
      var line := Line(msg, Metric(name, Normalize(name, value)));
      assert Format(msg, FieldMetrics(msg, names, field)) == [line];
      FlatAdvance(all, sent, line, rest, send);
      sent := sent + [line];
      stopped := send(line) != 0;
    }
  }

  /** The handler: the fields in response order; for a flat message type
      only the allowed fields, for `UPDATE_VIEW_INFO` the entries of every
      mapping-valued field; each line sent as soon as it is built, and the
      first rejected line ends the process, also from the nested loop. */
  method Callback(response: Response, send: string -> int) returns (sent: seq<string>, outcome: Outcome)
    ensures Trace(sent, outcome) == Submission(Lines(response.msg, response.data), send)
  {
    sent, outcome := [], Returned;
    var msg, data := response.msg, response.data;
    if msg !in RelevantFields {
      return;
    }
    var names := AllowedNames(msg);
    KnownLines(msg, data);
    ghost var all := Submission(Format(msg, Collect(msg, names, data)), send);
    assert data[0..] == data;
    var i := 0;
    while i < |data|
      invariant 0 <= i <= |data|
      invariant all == After(sent, Submission(Format(msg, Collect(msg, names, data[i..])), send))
    {
      ghost var rest := Format(msg, Collect(msg, names, data[i + 1..]));
      FieldStep(msg, names, data, i);
      var stopped;
      sent, stopped := SendField(msg, names, data[i], send, sent, rest, all);
      if stopped {
        outcome := Exited(1);
        return;
      }
      i := i + 1;
    }
  }

  /** A response of a type outside the table sends nothing and returns. */
  lemma UnknownMessageSendsNothing(response: Response, send: string -> int)
    requires response.msg !in RelevantFields
    ensures Submission(Lines(response.msg, response.data), send) == Trace([], Returned)
  {
  }
}
