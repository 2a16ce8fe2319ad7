/** The metric lines the handler pipes to `zabbix_sender -i -`: one line per
    metric, `- <item key> <value>`, where `-` stands for the host of the
    agent configuration and the item key is `<message type, lowercased>[<key>]`. */
module MetricLines {
  import opened Values
  import opened AllowList
  import opened Metrics

  function LowerChar(c: char): char
  {
    if 'A' <= c <= 'Z' then (c as int - 'A' as int + 'a' as int) as char else c
  }

  /** Python's `str.lower()` on the ASCII letters (message types are ASCII). */
  function Lower(s: string): string
  {
    seq(|s|, i requires 0 <= i < |s| => LowerChar(s[i]))
  }

  /** The line submitted for metric `m` of a response of type `msg`. */
  function Line(msg: string, m: Metric): string
  {
    "- " + Lower(msg) + "[" + m.key + "] " + Render(m.value)
  }

  /** The lines of a sequence of metrics, one per metric, in order. */
  function Format(msg: string, ms: seq<Metric>): seq<string>
  {
    if ms == [] then [] else [Line(msg, ms[0])] + Format(msg, ms[1..])
  }

  /** Every line the handler submits for response `(msg, data)`, in order. */
  function Lines(msg: string, data: seq<Field>): seq<string>
  {
    Format(msg, Filter(msg, data))
  }

  // ---------------------------------------------------------------------
  // How the sender reads a line

  /** One line of `zabbix_sender` input: host, item key and value. */
  datatype SenderInput = SenderInput(host: string, itemKey: string, value: string)

  /** Splits `s` at the first occurrence of `c`. */
  function SplitAt(c: char, s: string): Option<(string, string)>
  {
    if s == [] then None
    else if s[0] == c then Some(([], s[1..]))
    else match SplitAt(c, s[1..])
      case None => None
      case Some(pair) => Some(([s[0]] + pair.0, pair.1))
  }

  /** The value a field of the line stands for: text enclosed in double
      quotes stands for the text between them, so `""` is the empty value;
      any other text stands for itself. */
  function SenderValue(v: string): (r: string)
    ensures |r| <= |v|
  {
    if |v| >= 2 && v[0] == '"' && v[|v| - 1] == '"' then v[1..|v| - 1] else v
  }

  /** Host up to the first space, item key up to the next, value the rest. */
  function ParseSenderLine(line: string): Option<SenderInput>
  {
    match SplitAt(' ', line)
    case None => None
    case Some(hostRest) =>
      match SplitAt(' ', hostRest.1)
      case None => None
      case Some(keyValue) => Some(SenderInput(hostRest.0, keyValue.0, SenderValue(keyValue.1)))
  }

  /** An item key `tag[parameter]`: the tag up to the first `[`, the
      parameter up to the closing `]` at the end. */
  function ParseItemKey(k: string): Option<(string, string)>
  {
    match SplitAt('[', k)
    case None => None
    case Some(tagRest) =>
      if |tagRest.1| >= 1 && tagRest.1[|tagRest.1| - 1] == ']'
      then Some((tagRest.0, tagRest.1[..|tagRest.1| - 1]))
      else None
  }

  // ---------------------------------------------------------------------
  // Lemmas

  lemma {:induction false} SplitAtFirst(c: char, a: string, b: string)
    requires c !in a
    ensures SplitAt(c, a + [c] + b) == Some((a, b))
    decreases |a|
  {
    if a != [] {
      assert (a + [c] + b)[1..] == a[1..] + [c] + b;
      SplitAtFirst(c, a[1..], b);
      assert [a[0]] + a[1..] == a;
    }
  }

  lemma LowerKeeps(c: char, s: string)
    requires c !in s && !('A' <= c <= 'Z') && !('a' <= c <= 'z')
    ensures c !in Lower(s)
  {
  }

  /** The sender reads each line back as host `-`, item key
      `<lowercased type>[<key>]` and the value the rendering stands for, and the item key as
      the lowercased type and the key, provided the type and the key contain
      no space and the type no `[`. */
  lemma LineRoundTrip(msg: string, m: Metric)
    requires ' ' !in msg && '[' !in msg && ' ' !in m.key
    ensures ParseSenderLine(Line(msg, m))
      == Some(SenderInput("-", Lower(msg) + "[" + m.key + "]", SenderValue(Render(m.value))))
    ensures ParseItemKey(Lower(msg) + "[" + m.key + "]") == Some((Lower(msg), m.key))
  {
    var tag := Lower(msg);
    var item := tag + "[" + m.key + "]";
    LowerKeeps(' ', msg);
    LowerKeeps('[', msg);
    assert ' ' !in item;
    assert Line(msg, m) == "-" + [' '] + (item + [' '] + Render(m.value));
    SplitAtFirst(' ', "-", item + [' '] + Render(m.value));
    SplitAtFirst(' ', item, Render(m.value));
    assert item == tag + ['['] + (m.key + "]");
    SplitAtFirst('[', tag, m.key + "]");
    assert (m.key + "]")[..|m.key + "]"| - 1] == m.key;
  }

  /** An empty value of a string item reaches the sender as the empty value,
      and an empty value of any other item as `0`. */
  lemma EmptyValueRead(msg: string, key: string, name: string, v: Value)
    requires ' ' !in msg && '[' !in msg && ' ' !in key && Falsy(v)
    ensures var read := ParseSenderLine(Line(msg, Metric(key, Normalize(name, v))));
      read.Some? && read.value.value == (if StringNamed(name) then "" else "0")
  {
    LineRoundTrip(msg, Metric(key, Normalize(name, v)));
  }

  lemma {:induction false} FormatAppend(msg: string, a: seq<Metric>, b: seq<Metric>)
    ensures Format(msg, a + b) == Format(msg, a) + Format(msg, b)
    decreases |a|
  {
    if a == [] {
      assert a + b == b;
    } else {
      assert (a + b)[1..] == a[1..] + b;
      FormatAppend(msg, a[1..], b);
    }
  }

  /** One line per metric, the `k`-th describing the `k`-th metric. */
  lemma {:induction false} FormatAt(msg: string, ms: seq<Metric>)
    ensures |Format(msg, ms)| == |ms|
    ensures forall k :: 0 <= k < |ms| ==> Format(msg, ms)[k] == Line(msg, ms[k])
    decreases |ms|
  {
    if ms != [] {
      FormatAt(msg, ms[1..]);
    }
  }
}
