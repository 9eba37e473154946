/** The server's `extractCSRSubject`: turning the one line that
    `openssl req -noout -subject` prints (`subject=C = US, ST = ..., emailAddress = ...`)
    into a dictionary from lower-cased attribute name to trimmed value. Running openssl
    is outside the model; its standard output is the input here. */
module Subject {
  import opened Wrappers
  import opened JsStrings

  /** The segments the reduction walks through: the output without its first eight
      characters (`subject=`), split on commas. */
  function Segments(stdout: string): seq<string> {
    Split(SliceFrom(stdout, 8), ',')
  }

  /** The dictionary key of one segment: the trimmed, lower-cased text before its first `=`. */
  function SegmentKey(segment: string): (k: string)
    ensures forall i | 0 <= i < |k| :: !('A' <= k[i] <= 'Z')
    ensures k == [] || !IsWhitespace(k[0])
  {
    var name := Trim(Split(Trim(segment), '=')[0]);
    if name == [] then [] else
      LowerCharKeepsNonWhitespace(name[0]);
      ToLower(name)
  }

  /** Lower-casing never turns a character into whitespace. */
  lemma LowerCharKeepsNonWhitespace(c: char)
    requires !IsWhitespace(c)
    ensures !IsWhitespace(LowerChar(c))
  {
    if 'A' <= c <= 'Z' {
      assert 'a' <= LowerChar(c) <= 'z';
    }
  }

  /** The value of one segment: the trimmed text between its first and second `=`,
      or the empty string when it has no `=`. */
  function SegmentValue(segment: string): (v: string)
    ensures '=' !in v
    ensures '=' !in segment ==> v == ""
  {
    var parts := Split(Trim(segment), '=');
    TrimKeeps(segment);
    if |parts| >= 2 then
      assert parts[1] in parts;
      TrimKeeps(parts[1]);
      Trim(parts[1])
    else
      ""
  }

  /** Trimming a segment with an `=` trims the text before it from the left and the text
      after it from the right; the `=` itself stays. */
  lemma TrimAroundEquals(n: string, w: string)
    ensures Trim(n + ['='] + w) == TrimStart(n) + ['='] + TrimEnd(w)
  {
    TrimStartThrough(n, '=', w);
    TrimEndThrough(TrimStart(n), '=', w);
  }

  /** The key rule: the trimmed, lower-cased text before the first `=`, whatever follows it. */
  lemma SegmentKeyBeforeEquals(n: string, w: string)
    requires '=' !in n
    ensures SegmentKey(n + ['='] + w) == ToLower(Trim(n))
  {
    TrimAroundEquals(n, w);
    var m := TrimStart(n);
    assert '=' !in m by {
      assert m == n[|n| - |m|..];
    }
    SplitAfterSeparator(m, '=', TrimEnd(w));
    TrimAfterTrimStart(n);
  }

  /** Without an `=` the whole trimmed, lower-cased segment is the key. */
  lemma SegmentKeyWithoutEquals(segment: string)
    requires '=' !in segment
    ensures SegmentKey(segment) == ToLower(Trim(segment))
  {
    TrimKeeps(segment);
    SplitWithoutSeparator(Trim(segment), '=');
    TrimIdempotent(segment);
  }

  /** The value rule with one `=`: the trimmed text after it. */
  lemma SegmentValueAfterEquals(n: string, v: string)
    requires '=' !in n && '=' !in v
    ensures SegmentValue(n + ['='] + v) == Trim(v)
  {
    TrimAroundEquals(n, v);
    var m := TrimStart(n);
    var e := TrimEnd(v);
    assert '=' !in m by {
      assert m == n[|n| - |m|..];
    }
    assert '=' !in e by {
      assert e == v[..|e|];
    }
    SplitAfterSeparator(m, '=', e);
    SplitWithoutSeparator(e, '=');
    TrimAfterTrimEnd(v);
  }

  /** The value rule with a second `=`: the trimmed text between the first two, the rest
      being dropped (`CN=a=b` has the value `a`). */
  lemma SegmentValueBeforeSecondEquals(n: string, v: string, rest: string)
    requires '=' !in n && '=' !in v
    ensures SegmentValue(n + ['='] + v + ['='] + rest) == Trim(v)
  {
    var w := v + ['='] + rest;
    assert n + ['='] + v + ['='] + rest == n + ['='] + w;
    TrimAroundEquals(n, w);
    TrimEndThrough(v, '=', rest);
    var m := TrimStart(n);
    assert '=' !in m by {
      assert m == n[|n| - |m|..];
    }
    SplitTwoSeparators(m, v, TrimEnd(rest));
  }

  lemma SplitTwoSeparators(m: string, v: string, r: string)
    requires '=' !in m && '=' !in v
    ensures Split(m + ['='] + (v + ['='] + r), '=')[1] == v
  {
    SplitAfterSeparator(m, '=', v + ['='] + r);
    SplitAfterSeparator(v, '=', r);
  }

  lemma SplitAttribute(name: string, value: string)
    requires '=' !in name && '=' !in value
    ensures Split(name + " = " + value, '=') == [name + " ", " " + value]
  {
    assert name + " = " + value == (name + " ") + ['='] + (" " + value);
    assert '=' !in name + " " && '=' !in " " + value;
    SplitAfterSeparator(name + " ", '=', " " + value);
    SplitWithoutSeparator(" " + value, '=');
  }

  lemma TrimAttribute(pre: string, name: string, value: string, post: string)
    requires AllWhitespace(pre) && AllWhitespace(post)
    requires name != [] && value != [] && Trimmed(name) && Trimmed(value)
    ensures Trim(pre + name + " = " + value + post) == name + " = " + value
  {
    var x := name + " = " + value;
    assert pre + name + " = " + value + post == pre + x + post;
    assert x[0] == name[0] && x[|x| - 1] == value[|value| - 1];
    TrimPadded(pre, x, post);
  }

  lemma TrimName(name: string)
    requires Trimmed(name)
    ensures Trim(name + " ") == name
  {
    assert AllWhitespace(" ");
    TrimPadded([], name, " ");
    assert [] + name + " " == name + " ";
  }

  lemma TrimValue(value: string)
    requires Trimmed(value)
    ensures Trim(" " + value) == value
  {
    assert AllWhitespace(" ");
    TrimPadded(" ", value, []);
    assert " " + value + [] == " " + value;
  }

  /** A segment in the form openssl prints, `NAME = VALUE` with optional surrounding
      whitespace, yields the lower-cased name as key and the value itself. */
  lemma AttributeSegment(pre: string, name: string, value: string, post: string)
    requires AllWhitespace(pre) && AllWhitespace(post)
    requires name != [] && value != [] && Trimmed(name) && Trimmed(value)
    requires '=' !in name && '=' !in value
    ensures SegmentKey(pre + name + " = " + value + post) == ToLower(name)
    ensures SegmentValue(pre + name + " = " + value + post) == value
  {
    TrimAttribute(pre, name, value, post);
    SplitAttribute(name, value);
    TrimName(name);
    TrimValue(value);
  }

  /** The entry one segment contributes to the reduction. */
  function Entry(segment: string): (string, string) {
    (SegmentKey(segment), SegmentValue(segment))
  }

  /** The key/value entries of openssl's output, in order. */
  function Entries(stdout: string): seq<(string, string)> {
    var segments := Segments(stdout);
    seq(|segments|, i requires 0 <= i < |segments| => Entry(segments[i]))
  }

  /** One attribute as openssl prints it in the subject line: `NAME = VALUE` with whitespace
      around it, the name and value themselves free of `=` and `,`. */
  datatype PrintedAttribute = PrintedAttribute(pre: string, name: string, value: string, post: string)

  predicate WellPrinted(a: PrintedAttribute) {
    && AllWhitespace(a.pre) && AllWhitespace(a.post)
    && a.name != [] && a.value != [] && Trimmed(a.name) && Trimmed(a.value)
    && '=' !in a.name && '=' !in a.value && ',' !in a.name && ',' !in a.value
  }

  function AttributeText(a: PrintedAttribute): string {
    a.pre + a.name + " = " + a.value + a.post
  }

  /** `subject=` followed by the attributes, separated by commas. */
  function SubjectLine(attrs: seq<PrintedAttribute>): string {
    "subject=" + Join(AttributeTexts(attrs), ',')
  }

  function AttributeTexts(attrs: seq<PrintedAttribute>): seq<string> {
    seq(|attrs|, i requires 0 <= i < |attrs| => AttributeText(attrs[i]))
  }

  /** What each printed attribute should give: its lower-cased name and its value. */
  function AttributeEntries(attrs: seq<PrintedAttribute>): seq<(string, string)> {
    seq(|attrs|, i requires 0 <= i < |attrs| => (ToLower(attrs[i].name), attrs[i].value))
  }

  lemma NoCommaInAttribute(a: PrintedAttribute)
    requires WellPrinted(a)
    ensures ',' !in AttributeText(a)
  {
    forall k | 0 <= k < |a.pre| ensures a.pre[k] != ',' {
      assert IsWhitespace(a.pre[k]);
    }
    forall k | 0 <= k < |a.post| ensures a.post[k] != ',' {
      assert IsWhitespace(a.post[k]);
    }
  }

  /** On a subject line in openssl's format, the map step gives each attribute's lower-cased
      name and its value, in order. */
  lemma EntriesOfSubjectLine(attrs: seq<PrintedAttribute>)
    requires |attrs| >= 1
    requires forall i | 0 <= i < |attrs| :: WellPrinted(attrs[i])
    ensures Entries(SubjectLine(attrs)) == AttributeEntries(attrs)
  {
    var texts := AttributeTexts(attrs);
    forall p | p in texts ensures ',' !in p {
      var i :| 0 <= i < |texts| && texts[i] == p;
      NoCommaInAttribute(attrs[i]);
    }
    SplitJoin(texts, ',');
    var line := SubjectLine(attrs);
    assert SliceFrom(line, 8) == Join(texts, ',') by {
      assert |"subject="| == 8;
    }
    assert Segments(line) == texts;
    forall i | 0 <= i < |attrs|
      ensures Entries(line)[i] == AttributeEntries(attrs)[i]
    {
      var a := attrs[i];
      AttributeSegment(a.pre, a.name, a.value, a.post);
    }
  }

  /** The address the server reads from such a line is the value of the first attribute
      whose lower-cased name is `emailaddress`, and there is none when no attribute has it. */
  lemma SubjectEmailOfSubjectLine(attrs: seq<PrintedAttribute>)
    requires |attrs| >= 1
    requires forall i | 0 <= i < |attrs| :: WellPrinted(attrs[i])
    ensures SubjectEmail(SubjectLine(attrs)) == FirstOccurrence(AttributeEntries(attrs), "emailaddress")
  {
    EntriesOfSubjectLine(attrs);
    ExtractCSRSubjectFirstWins(SubjectLine(attrs), "emailaddress");
  }

  /** The `reduce` over the entries: each step builds `{ [k]: v, ...kvs }`, in which
      the entries already in `kvs` win over the new one. */
  function Collect(kvs: map<string, string>, entries: seq<(string, string)>): map<string, string>
    decreases |entries|
  {
    if entries == [] then kvs
    else Collect(map[entries[0].0 := entries[0].1] + kvs, entries[1..])
  }

  /** `extractCSRSubject`, starting from openssl's output. */
  function ExtractCSRSubject(stdout: string): map<string, string> {
    Collect(map[], Entries(stdout))
  }

  /** `subject[key]`: `undefined` (None) when the key is absent. */
  function Lookup(subject: map<string, string>, key: string): Option<string> {
    if key in subject then Some(subject[key]) else None
  }

  /** `subject['emailaddress']` for the subject of the given openssl output. */
  function SubjectEmail(stdout: string): Option<string> {
    Lookup(ExtractCSRSubject(stdout), "emailaddress")
  }

  /** Entry `i` is the first entry whose key is `key`. */
  predicate IsFirst(entries: seq<(string, string)>, key: string, i: int) {
    && 0 <= i < |entries| && entries[i].0 == key
    && forall j | 0 <= j < i :: entries[j].0 != key
  }

  /** No entry has the key `key`. */
  predicate Absent(entries: seq<(string, string)>, key: string) {
    forall i | 0 <= i < |entries| :: entries[i].0 != key
  }

  /** The reference meaning of a subject lookup: the value of the first entry whose key
      is `key`, or nothing when no entry has that key. */
  function FirstOccurrence(entries: seq<(string, string)>, key: string): (r: Option<string>)
    ensures r.None? <==> Absent(entries, key)
    ensures r.Some? ==> exists i :: IsFirst(entries, key, i) && entries[i].1 == r.value
    decreases |entries|
  {
    if entries == [] then None
    else if entries[0].0 == key then
      assert IsFirst(entries, key, 0);
      Some(entries[0].1)
    else
      var r := FirstOccurrence(entries[1..], key);
      FirstOccurrenceStep(entries, key, r);
      r
  }

  /** The contract of FirstOccurrence carries over from the tail to the whole sequence
      when the first entry's key differs. */
  lemma FirstOccurrenceStep(entries: seq<(string, string)>, key: string, r: Option<string>)
    requires entries != [] && entries[0].0 != key
    requires r.None? <==> Absent(entries[1..], key)
    requires r.Some? ==> exists i :: IsFirst(entries[1..], key, i) && entries[1..][i].1 == r.value
    ensures r.None? <==> Absent(entries, key)
    ensures r.Some? ==> exists i :: IsFirst(entries, key, i) && entries[i].1 == r.value
  {
    var tail := entries[1..];
    if r.Some? {
      var i :| IsFirst(tail, key, i) && tail[i].1 == r.value;
      assert IsFirst(entries, key, i + 1) by {
        forall j | 0 <= j < i + 1 ensures entries[j].0 != key {
          if j > 0 { assert entries[j] == tail[j - 1]; }
        }
      }
    } else {
      assert Absent(entries, key) by {
        forall i | 0 <= i < |entries| ensures entries[i].0 != key {
          if i > 0 { assert entries[i] == tail[i - 1]; }
        }
      }
    }
  }

  /** Folding from an accumulator: keys the accumulator has keep their value, the others
      get the value of their first entry. */
  lemma {:induction false} CollectLookup(kvs: map<string, string>, entries: seq<(string, string)>, key: string)
    ensures Lookup(Collect(kvs, entries), key)
         == if key in kvs then Some(kvs[key]) else FirstOccurrence(entries, key)
    decreases |entries|
  {
    if entries != [] {
      var next := map[entries[0].0 := entries[0].1] + kvs;
      CollectLookup(next, entries[1..], key);
    }
  }

  /** On a duplicate attribute the first occurrence wins, and only attributes that occur
      are present. */
  lemma ExtractCSRSubjectFirstWins(stdout: string, key: string)
    ensures Lookup(ExtractCSRSubject(stdout), key) == FirstOccurrence(Entries(stdout), key)
  {
    CollectLookup(map[], Entries(stdout), key);
  }

  /** Every key of an extracted subject is the key of one of the segments. */
  lemma ExtractCSRSubjectKeys(stdout: string)
    ensures forall k | k in ExtractCSRSubject(stdout) ::
      exists i | 0 <= i < |Segments(stdout)| :: SegmentKey(Segments(stdout)[i]) == k
  {
    forall k | k in ExtractCSRSubject(stdout)
      ensures exists i | 0 <= i < |Segments(stdout)| :: SegmentKey(Segments(stdout)[i]) == k
    {
      ExtractCSRSubjectFirstWins(stdout, k);
      var segments := Segments(stdout);
      var i :| IsFirst(Entries(stdout), k, i);
      assert Entries(stdout)[i] == Entry(segments[i]);
      assert SegmentKey(segments[i]) == k;
    }
  }
}
