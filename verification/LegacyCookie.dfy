/** Printing a dictionary as a legacy cookie string and parsing it back. */
module LegacyCookie {
  import opened Wrappers

  /** A key and its value, which may be null. */
  type Pair = (string, Option<string>)

  /** A null value prints as an empty string. */
  function Text(value: Option<string>): string {
    if value.Some? then value.value else ""
  }

  function Join(separator: char, parts: seq<string>): string {
    if parts == [] then ""
    else if |parts| == 1 then parts[0]
    else parts[0] + [separator] + Join(separator, parts[1..])
  }

  /** `string.Split`: always at least one part. */
  function Split(separator: char, s: string): (parts: seq<string>)
    ensures parts != []
  {
    if s == [] then [""]
    else
      var rest := Split(separator, s[1..]);
      if s[0] == separator then [""] + rest else [[s[0]] + rest[0]] + rest[1..]
  }

  function Parts(pairs: seq<Pair>): seq<string> {
    seq(|pairs|, i requires 0 <= i < |pairs| => Join('=', [pairs[i].0, Text(pairs[i].1)]))
  }

  /** The dictionary's entries in the order it enumerates them. */
  function Print(pairs: seq<Pair>): string {
    Join('&', Parts(pairs))
  }

  /** Parsing fails on a part without `=` and on a key that comes twice. */
  function ParseParts(parts: seq<string>): Option<seq<Pair>> {
    if parts == [] then Some([])
    else
      var front := ParseParts(parts[..|parts| - 1]);
      var fields := Split('=', parts[|parts| - 1]);
      if front.None? || |fields| < 2 || (exists p | p in front.value :: p.0 == fields[0]) then None
      else Some(front.value + [(fields[0], Some(fields[1]))])
  }

  function Parse(cookie: string): Option<seq<Pair>> {
    ParseParts(Split('&', cookie))
  }

  // ----- what is printed and what is parsed, written out -----------------------

  lemma {:induction false} JoinOneMore(separator: char, parts: seq<string>, last: string)
    requires parts != []
    ensures Join(separator, parts + [last]) == Join(separator, parts) + [separator] + last
  {
    if |parts| == 1 {
      assert (parts + [last])[1..] == [last];
    } else {
      assert (parts + [last])[1..] == parts[1..] + [last];
      JoinOneMore(separator, parts[1..], last);
    }
  }

  /** Pairs are printed in order with `&` between them, each as its key, `=`, and its value, a null one as nothing. */
  lemma PrintOneMore(pairs: seq<Pair>, key: string, value: Option<string>)
    ensures var pair := if value.Some? then key + "=" + value.value else key + "=";
            Print(pairs + [(key, value)]) == if pairs == [] then pair else Print(pairs) + "&" + pair
    ensures Print([]) == ""
  {
    PartOf((key, value));
    assert Parts(pairs + [(key, value)]) == Parts(pairs) + [Join('=', [key, Text(value)])];
    if pairs == [] {
      assert Parts(pairs) == [];
    } else {
      JoinOneMore('&', Parts(pairs), Join('=', [key, Text(value)]));
    }
  }

  lemma {:induction false} SplitCounts(separator: char, s: string)
    ensures |Split(separator, s)| >= 2 <==> separator in s
  {
    if s == [] {
    } else {
      SplitCounts(separator, s[1..]);
    }
  }

  /** What stands in front of a part's first `=`. */
  function KeyOf(part: string): string {
    Split('=', part)[0]
  }

  /** Every part holds an `=`, and no two have the same key in front of it. */
  ghost predicate Parsable(parts: seq<string>) {
    && (forall i :: 0 <= i < |parts| ==> '=' in parts[i])
    && (forall i, j :: 0 <= i < j < |parts| ==> KeyOf(parts[i]) != KeyOf(parts[j]))
  }

  lemma ParsableOneMore(front: seq<string>, last: string)
    ensures Parsable(front + [last]) <==>
            Parsable(front) && '=' in last && forall i :: 0 <= i < |front| ==> KeyOf(front[i]) != KeyOf(last)
  {
    var parts := front + [last];
    assert parts[|front|] == last && forall i :: 0 <= i < |front| ==> parts[i] == front[i];
  }

  lemma {:induction false} PartsParseIff(parts: seq<string>)
    ensures ParseParts(parts).Some? <==> Parsable(parts)
  {
    if parts == [] {
    } else {
      var front, last := parts[..|parts| - 1], parts[|parts| - 1];
      PartsParseIff(front);
      SplitCounts('=', last);
      assert parts == front + [last];
      ParsableOneMore(front, last);
      if ParseParts(front).Some? {
        KeysTaken(front, KeyOf(last));
      }
    }
  }

  lemma KeysTaken(parts: seq<string>, key: string)
    requires ParseParts(parts).Some?
    ensures (exists p :: p in ParseParts(parts).value && p.0 == key) <==> exists i :: 0 <= i < |parts| && KeyOf(parts[i]) == key
  {
    ParsedFields(parts);
    var parsed := ParseParts(parts).value;
    if i :| 0 <= i < |parts| && KeyOf(parts[i]) == key {
      assert parsed[i] in parsed && parsed[i].0 == key;
    }
  }

  /** A string parses if and only if every part between two `&` does, and their keys differ. */
  lemma ParsesIff(cookie: string)
    ensures Parse(cookie).Some? <==> Parsable(Split('&', cookie))
  {
    PartsParseIff(Split('&', cookie));
  }

  // ----- split undoes join ---------------------------------------------------

  lemma {:induction false} SplitOfPlain(separator: char, s: string)
    requires separator !in s
    ensures Split(separator, s) == [s]
  {
    if s == [] {
    } else {
      SplitOfPlain(separator, s[1..]);
      assert [s[0]] + s[1..] == s;
    }
  }

  lemma {:induction false} SplitAtFirst(separator: char, s: string, rest: string)
    requires separator !in s
    ensures Split(separator, s + [separator] + rest) == [s] + Split(separator, rest)
  {
    var all := s + [separator] + rest;
    if s == [] {
      assert all[1..] == rest;
    } else {
      assert all[1..] == s[1..] + [separator] + rest;
      SplitAtFirst(separator, s[1..], rest);
      assert [s[0]] + s[1..] == s;
    }
  }

  /** Splitting undoes joining, for any parts without the separator, as long as there is one. */
  lemma {:induction false} SplitUndoesJoin(separator: char, parts: seq<string>)
    requires parts != [] && forall p :: p in parts ==> separator !in p
    ensures Split(separator, Join(separator, parts)) == parts
  {
    if |parts| == 1 {
      SplitOfPlain(separator, parts[0]);
    } else {
      SplitUndoesJoin(separator, parts[1..]);
      SplitAtFirst(separator, parts[0], Join(separator, parts[1..]));
    }
  }

  lemma {:induction false} PartsHaveNoSeparator(separator: char, s: string)
    ensures forall p :: p in Split(separator, s) ==> separator !in p && forall c :: c in p ==> c in s
  {
    if s == [] {
    } else {
      PartsHaveNoSeparator(separator, s[1..]);
      var rest := Split(separator, s[1..]);
      assert rest[0] in rest && forall p :: p in rest[1..] ==> p in rest;
    }
  }

  // ----- the round trip ------------------------------------------------------

  predicate Clean(s: string) {
    '&' !in s && '=' !in s
  }

  /** The value is not null, and neither it nor the key contains a separator. */
  predicate CleanPair(p: Pair) {
    Clean(p.0) && p.1.Some? && Clean(p.1.value)
  }

  ghost predicate Printable(pairs: seq<Pair>) {
    pairs != [] && forall p :: p in pairs ==> CleanPair(p)
  }

  ghost predicate DistinctKeys(pairs: seq<Pair>) {
    forall i, j :: 0 <= i < j < |pairs| ==> pairs[i].0 != pairs[j].0
  }

  lemma PartOf(p: Pair)
    ensures Join('=', [p.0, Text(p.1)]) == p.0 + "=" + Text(p.1)
  {
    assert [p.0, Text(p.1)][1..] == [Text(p.1)];
  }

  lemma ParseOneMore(parts: seq<string>, front: seq<Pair>, last: Pair)
    requires ParseParts(parts) == Some(front) && CleanPair(last)
    requires forall p :: p in front ==> p.0 != last.0
    ensures ParseParts(parts + [Join('=', [last.0, Text(last.1)])]) == Some(front + [last])
  {
    var fields := [last.0, Text(last.1)];
    SplitUndoesJoin('=', fields);
    var all := parts + [Join('=', fields)];
    assert all[..|all| - 1] == parts;
  }

  lemma {:induction false} PartsParseBack(pairs: seq<Pair>)
    requires DistinctKeys(pairs) && forall p :: p in pairs ==> CleanPair(p)
    ensures ParseParts(Parts(pairs)) == Some(pairs)
  {
    if pairs == [] {
    } else {
      var n := |pairs| - 1;
      PartsParseBack(pairs[..n]);
      assert pairs[n] in pairs;
      ParseOneMore(Parts(pairs[..n]), pairs[..n], pairs[n]);
      assert Parts(pairs) == Parts(pairs[..n]) + [Join('=', [pairs[n].0, Text(pairs[n].1)])];
      assert pairs == pairs[..n] + [pairs[n]];
    }
  }

  /** Whatever is parsed has clean keys and values and is not empty. */
  lemma {:induction false} ParsedIsPrintable(parts: seq<string>)
    requires ParseParts(parts).Some? && forall p :: p in parts ==> '&' !in p
    ensures |ParseParts(parts).value| == |parts|
    ensures forall p :: p in ParseParts(parts).value ==> CleanPair(p)
  {
    if parts == [] {
    } else {
      ParsedIsPrintable(parts[..|parts| - 1]);
      var last := parts[|parts| - 1];
      PartsHaveNoSeparator('=', last);
      var fields := Split('=', last);
      assert fields[0] in fields && fields[1] in fields && last in parts;
    }
  }

  /**
   Printing a dictionary and parsing it gives the dictionary back if and only if it is not empty,
   no value is null, and no key or value contains `&` or `=`.
   */
  lemma RoundTripIffPrintable(pairs: seq<Pair>)
    requires DistinctKeys(pairs)
    ensures Parse(Print(pairs)) == Some(pairs) <==> Printable(pairs)
  {
    if Printable(pairs) {
      PrintedParts(pairs);
      PartsParseBack(pairs);
    }
    if Parse(Print(pairs)) == Some(pairs) {
      PartsHaveNoSeparator('&', Print(pairs));
      ParsedIsPrintable(Split('&', Print(pairs)));
    }
  }

  // ----- the other way round: parse, then print -------------------------------

  lemma {:induction false} JoinUndoesSplit(separator: char, s: string)
    ensures Join(separator, Split(separator, s)) == s
  {
    if s == [] {
    } else {
      JoinUndoesSplit(separator, s[1..]);
      var rest := Split(separator, s[1..]);
      if s[0] == separator {
        assert ([""] + rest)[1..] == rest;
      } else {
        var first := [s[0]] + rest[0];
        assert ([first] + rest[1..])[1..] == rest[1..];
      }
    }
  }

  lemma {:induction false} ParsedFields(parts: seq<string>)
    requires ParseParts(parts).Some?
    ensures |ParseParts(parts).value| == |parts|
    ensures forall i :: 0 <= i < |parts| ==>
      |Split('=', parts[i])| >= 2
      && ParseParts(parts).value[i] == (Split('=', parts[i])[0], Some(Split('=', parts[i])[1]))
    ensures DistinctKeys(ParseParts(parts).value)
  {
    if parts == [] {
    } else {
      var front := parts[..|parts| - 1];
      ParsedFields(front);
      var parsed := ParseParts(front).value;
      assert forall i :: 0 <= i < |parsed| ==> parsed[i] in parsed;
    }
  }

  /** Every part between two `&` holds at most one `=`. */
  ghost predicate NoExtraFields(cookie: string) {
    forall part :: part in Split('&', cookie) ==> |Split('=', part)| <= 2
  }

  /**
   A string that parses is printed back unchanged if and only if no part holds a second `=`:
   whatever follows a second `=` is dropped.
   */
  lemma ParsedPrintsBackIffNoExtraFields(cookie: string)
    requires Parse(cookie).Some?
    ensures DistinctKeys(Parse(cookie).value)
    ensures Print(Parse(cookie).value) == cookie <==> NoExtraFields(cookie)
  {
    ParsedFields(Split('&', cookie));
    if NoExtraFields(cookie) {
      NoExtraFieldsPrintBack(cookie);
    }
    if Print(Parse(cookie).value) == cookie {
      PrintedHasNoExtraFields(cookie);
    }
  }

  lemma NoExtraFieldsPrintBack(cookie: string)
    requires Parse(cookie).Some? && NoExtraFields(cookie)
    ensures Print(Parse(cookie).value) == cookie
  {
    var parts, pairs := Split('&', cookie), Parse(cookie).value;
    ParsedFields(parts);
    forall i | 0 <= i < |parts|
      ensures Parts(pairs)[i] == parts[i]
    {
      assert parts[i] in parts;
      JoinUndoesSplit('=', parts[i]);
      assert Split('=', parts[i]) == [pairs[i].0, Text(pairs[i].1)];
    }
    assert Parts(pairs) == parts;
    JoinUndoesSplit('&', cookie);
  }

  lemma PrintedHasNoExtraFields(cookie: string)
    requires Parse(cookie).Some? && Print(Parse(cookie).value) == cookie
    ensures NoExtraFields(cookie)
  {
    var parts, pairs := Split('&', cookie), Parse(cookie).value;
    PartsHaveNoSeparator('&', cookie);
    ParsedIsPrintable(parts);
    PrintedParts(pairs);
    forall part | part in parts
      ensures |Split('=', part)| == 2
    {
      var i :| 0 <= i < |parts| && parts[i] == part;
      assert pairs[i] in pairs;
      SplitUndoesJoin('=', [pairs[i].0, Text(pairs[i].1)]);
    }
  }

  lemma PrintedParts(pairs: seq<Pair>)
    requires Printable(pairs)
    ensures Split('&', Print(pairs)) == Parts(pairs)
  {
    forall p | p in Parts(pairs)
      ensures '&' !in p
    {
      var i :| 0 <= i < |pairs| && p == Parts(pairs)[i];
      PartOf(pairs[i]);
      assert pairs[i] in pairs;
    }
    SplitUndoesJoin('&', Parts(pairs));
  }
}
