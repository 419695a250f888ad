/** The shape of the text line sent on every tick: a tag, then each field
    preceded by ';', then one '\n' -- the shape of the format string
    "bms;{:.2};...;{:.2}\n". `Split` and `ParseRecord` read such a line back
    and are the partner against which the line's structure is stated. */
module RecordFormat {

  const Separator: char := ';'
  const Terminator: char := '\n'

  /** A string that can stand between separators without being misread. */
  predicate IsPlainField(s: string)
  {
    Separator !in s && Terminator !in s
  }

  /** ";f0;f1;...;fn" */
  function PrefixedFields(fields: seq<string>): (text: string)
  {
    if fields == [] then "" else [Separator] + fields[0] + PrefixedFields(fields[1..])
  }

  /** tag, every field preceded by the separator, then the terminator. */
  function FormatRecord(tag: string, fields: seq<string>): (line: string)
  {
    tag + PrefixedFields(fields) + [Terminator]
  }

  /** Cuts a string at every separator; always yields at least one piece. */
  function Split(s: string): (pieces: seq<string>)
    ensures |pieces| >= 1
  {
    if s == [] then [""]
    else
      var rest := Split(s[1..]);
      if s[0] == Separator then [""] + rest
      else [[s[0]] + rest[0]] + rest[1..]
  }

  /** Reads a line back: no pieces at all unless it ends in the terminator,
      otherwise what precedes the terminator cut at the separators. */
  function ParseRecord(line: string): (pieces: seq<string>)
  {
    if line != [] && line[|line| - 1] == Terminator then Split(line[..|line| - 1]) else []
  }

  /** Text without separators is glued to the first piece of what follows. */
  lemma {:induction false} SplitPlainPrefix(x: string, y: string)
    requires Separator !in x
    ensures Split(x + y) == [x + Split(y)[0]] + Split(y)[1..]
  {
    if x != [] {
      assert (x + y)[1..] == x[1..] + y;
      SplitPlainPrefix(x[1..], y);
      assert [x[0]] + (x[1..] + Split(y)[0]) == x + Split(y)[0];
    } else {
      var pieces := Split(y);
      assert x + y == y && x + pieces[0] == pieces[0];
      assert pieces == [pieces[0]] + pieces[1..];
    }
  }

  /** Splitting ";f0;...;fn" gives an empty piece, then the fields. */
  lemma {:induction false} SplitPrefixedFields(fields: seq<string>)
    requires forall i :: 0 <= i < |fields| ==> Separator !in fields[i]
    ensures Split(PrefixedFields(fields)) == [""] + fields
  {
    if fields != [] {
      var tail := PrefixedFields(fields[1..]);
      SplitPrefixedFields(fields[1..]);
      calc {
        Split(PrefixedFields(fields));
        { assert PrefixedFields(fields) == [Separator] + (fields[0] + tail);
          assert ([Separator] + (fields[0] + tail))[1..] == fields[0] + tail; }
        [""] + Split(fields[0] + tail);
        { SplitPlainPrefix(fields[0], tail); }
        [""] + ([fields[0] + ""] + fields[1..]);
        { assert fields[0] + "" == fields[0]; }
        [""] + fields;
      }
    }
  }

  /** Round trip: a formatted record parses back into its tag and fields. */
  lemma RecordRoundTrip(tag: string, fields: seq<string>)
    requires Separator !in tag
    requires forall i :: 0 <= i < |fields| ==> Separator !in fields[i]
    ensures ParseRecord(FormatRecord(tag, fields)) == [tag] + fields
  {
    var line := FormatRecord(tag, fields);
    assert line[..|line| - 1] == tag + PrefixedFields(fields);
    SplitPlainPrefix(tag, PrefixedFields(fields));
    SplitPrefixedFields(fields);
    assert tag + "" == tag;
  }

  /** The terminator is not part of the prefixed fields when no field holds one. */
  lemma {:induction false} PrefixedFieldsHaveNoTerminator(fields: seq<string>)
    requires forall i :: 0 <= i < |fields| ==> Terminator !in fields[i]
    ensures Terminator !in PrefixedFields(fields)
  {
    if fields != [] {
      PrefixedFieldsHaveNoTerminator(fields[1..]);
      assert PrefixedFields(fields) == [Separator] + fields[0] + PrefixedFields(fields[1..]);
    }
  }

  /** A record whose parts hold no terminator has exactly one, its last character. */
  lemma SingleTerminator(tag: string, fields: seq<string>)
    requires Terminator !in tag
    requires forall i :: 0 <= i < |fields| ==> Terminator !in fields[i]
    ensures var line := FormatRecord(tag, fields);
      line[|line| - 1] == Terminator && Terminator !in line[..|line| - 1]
  {
    PrefixedFieldsHaveNoTerminator(fields);
    var line := FormatRecord(tag, fields);
    assert line[..|line| - 1] == tag + PrefixedFields(fields);
  }

  /** One separator per field when the fields themselves hold none. */
  lemma {:induction false} SeparatorCount(fields: seq<string>)
    requires forall i :: 0 <= i < |fields| ==> Separator !in fields[i]
    ensures multiset(PrefixedFields(fields))[Separator] == |fields|
  {
    if fields != [] {
      SeparatorCount(fields[1..]);
      assert PrefixedFields(fields) == [Separator] + fields[0] + PrefixedFields(fields[1..]);
      assert multiset(fields[0])[Separator] == 0;
    }
  }

  /** A record of n fields, none holding a separator, holds exactly n separators. */
  lemma RecordSeparatorCount(tag: string, fields: seq<string>)
    requires Separator !in tag
    requires forall i :: 0 <= i < |fields| ==> Separator !in fields[i]
    ensures multiset(FormatRecord(tag, fields))[Separator] == |fields|
  {
    SeparatorCount(fields);
    assert multiset(tag)[Separator] == 0;
  }
}
