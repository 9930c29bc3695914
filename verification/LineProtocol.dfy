/** InfluxDB line protocol: a point written to one line, and a reader that gets it back. */
module LineProtocol {
  import opened Wrappers
  import opened Sorting

  /** Object.entries: what a tag or field object lists, in its order. */
  datatype Tag = Tag(key: string, value: Option<string>)

  /** A field's value: a finite number, as its text, or anything else. */
  datatype Number = Finite(text: string) | Unusable

  datatype Field = Field(key: string, value: Number)

  // ---------------------------------------------------------------------- escaping

  predicate IsNewline(c: char) {
    c == '\r' || c == '\n'
  }

  /** Each run of line breaks becomes one space. */
  function OneLine(s: string): string {
    if s == "" then ""
    else if !IsNewline(s[0]) then [s[0]] + OneLine(s[1..])
    else if |s| > 1 && IsNewline(s[1]) then OneLine(s[1..])
    else " " + OneLine(s[1..])
  }

  const TAG_SPECIALS := {'\\', ' ', ',', '='}
  const MEASUREMENT_SPECIALS := {'\\', ' ', ','}

  function Escape(s: string, specials: set<char>): string {
    if s == "" then "" else (if s[0] in specials then ['\\', s[0]] else [s[0]]) + Escape(s[1..], specials)
  }

  function EscapeTag(s: string): string {
    Escape(OneLine(s), TAG_SPECIALS)
  }

  function EscapeMeasurement(s: string): string {
    Escape(OneLine(s), MEASUREMENT_SPECIALS)
  }

  // ---------------------------------------------------------------------- the line

  function KeptTags(tags: seq<Tag>): seq<Tag> {
    if tags == [] then []
    else (if tags[0].value.GetOr("") != "" then [tags[0]] else []) + KeptTags(tags[1..])
  }

  function KeptFields(fields: seq<Field>): seq<Field> {
    if fields == [] then []
    else (if fields[0].value.Finite? then [fields[0]] else []) + KeptFields(fields[1..])
  }

  function Join(parts: seq<string>): string {
    if parts == [] then "" else if |parts| == 1 then parts[0] else parts[0] + "," + Join(parts[1..])
  }

  function TagText(tag: Tag): string {
    EscapeTag(tag.key) + "=" + EscapeTag(tag.value.GetOr(""))
  }

  function FieldText(field: Field): string {
    field.key + "=" + if field.value.Finite? then field.value.text else ""
  }

  function TagTexts(tags: seq<Tag>): seq<string> {
    seq(|tags|, i requires 0 <= i < |tags| => TagText(tags[i]))
  }

  function FieldTexts(fields: seq<Field>): seq<string> {
    seq(|fields|, i requires 0 <= i < |fields| => FieldText(fields[i]))
  }

  /** buildLine: null when no field survived. */
  function BuildLine(measurement: string, tags: seq<Tag>, fields: seq<Field>, timestamp: string): Option<string> {
    var tagPart, fieldPart := Join(TagTexts(KeptTags(tags))), Join(FieldTexts(KeptFields(fields)));
    if fieldPart == "" then None
    else
      var name := EscapeMeasurement(measurement);
      Some((if tagPart != "" then name + "," + tagPart else name) + " " + fieldPart + " " + timestamp)
  }

  // ---------------------------------------------------------------------- the reader

  datatype Point = Point(measurement: string, tags: seq<(string, string)>, fields: seq<(string, string)>,
                         timestamp: string)

  /** Text up to the first unescaped stop, its escapes undone, and what is left of the line. */
  function ReadUntil(line: string, stops: set<char>): (r: (string, string))
    ensures |r.1| <= |line|
  {
    if line == "" || line[0] in stops then ("", line)
    else if line[0] == '\\' && |line| > 1 then
      var (text, rest) := ReadUntil(line[2..], stops);
      ([line[1]] + text, rest)
    else
      var (text, rest) := ReadUntil(line[1..], stops);
      ([line[0]] + text, rest)
  }

  const SEPARATORS := {',', ' ', '='}

  /** `,key=value` over and over, up to the space that ends the section. */
  function ReadPairs(line: string): (seq<(string, string)>, string)
    decreases |line|
  {
    if line == "" || line[0] != ',' then ([], line)
    else
      var (key, atEquals) := ReadUntil(line[1..], SEPARATORS);
      if atEquals == "" then ([(key, "")], "")
      else
        var (value, left) := ReadUntil(atEquals[1..], SEPARATORS);
        var (pairs, rest) := ReadPairs(left);
        ([(key, value)] + pairs, rest)
  }

  function Parse(line: string): Point {
    var (measurement, afterName) := ReadUntil(line, {',', ' '});
    var (tags, afterTags) := ReadPairs(afterName);
    var (fields, afterFields) := ReadPairs(if afterTags == "" then "" else "," + afterTags[1..]);
    Point(measurement, tags, fields, if afterFields == "" then "" else afterFields[1..])
  }

  // ------------------------------------------------------------------ reading it back

  /** Text that needs no escape: the field keys and numbers the sender writes. */
  predicate Bare(s: string) {
    forall i :: 0 <= i < |s| ==> s[i] !in TAG_SPECIALS && !IsNewline(s[i])
  }

  lemma {:induction false} ReadEscaped(s: string, specials: set<char>, stops: set<char>, rest: string)
    requires stops <= specials && '\\' in specials && '\\' !in stops
    requires rest == "" || rest[0] in stops
    ensures ReadUntil(Escape(s, specials) + rest, stops) == (s, rest)
  {
    var line := Escape(s, specials) + rest;
    if s == "" {
      assert line == rest;
    } else {
      ReadEscaped(s[1..], specials, stops, rest);
      var tail := Escape(s[1..], specials) + rest;
      if s[0] in specials {
        assert line == ['\\', s[0]] + tail;
        assert line[2..] == tail;
      } else {
        assert line == [s[0]] + tail;
        assert line[1..] == tail;
      }
      assert s == [s[0]] + s[1..];
    }
  }

  lemma {:induction false} BareIsEscaped(s: string)
    requires Bare(s)
    ensures Escape(s, TAG_SPECIALS) == s
  {
    if s == "" {
    } else {
      BareIsEscaped(s[1..]);
      assert s == [s[0]] + s[1..];
    }
  }

  /** A text piece as it stands on the line, and what a reader makes of it. */
  datatype Piece = Piece(key: string, value: string)

  function PieceText(p: Piece): string {
    Escape(p.key, TAG_SPECIALS) + "=" + Escape(p.value, TAG_SPECIALS)
  }

  function PieceTexts(pieces: seq<Piece>): seq<string> {
    seq(|pieces|, i requires 0 <= i < |pieces| => PieceText(pieces[i]))
  }

  function Pairs(pieces: seq<Piece>): seq<(string, string)> {
    seq(|pieces|, i requires 0 <= i < |pieces| => (pieces[i].key, pieces[i].value))
  }

  lemma JoinMore(first: string, others: seq<string>)
    ensures Join([first] + others) == if others == [] then first else first + "," + Join(others)
  {
    assert ([first] + others)[1..] == others;
  }

  lemma PieceShape(key: string, value: string, left: string)
    ensures ("," + (key + "=" + value) + left)[1..] == key + ("=" + value + left)
    ensures ("=" + value + left)[1..] == value + left
  {
  }

  lemma ReadPiece(p: Piece, left: string)
    requires left == "" || left[0] == ',' || left[0] == ' '
    ensures ReadPairs("," + PieceText(p) + left)
         == (var (pairs, rest) := ReadPairs(left); ([(p.key, p.value)] + pairs, rest))
  {
    var key, value := Escape(p.key, TAG_SPECIALS), Escape(p.value, TAG_SPECIALS);
    PieceShape(key, value, left);
    ReadEscaped(p.key, TAG_SPECIALS, SEPARATORS, "=" + value + left);
    ReadEscaped(p.value, TAG_SPECIALS, SEPARATORS, left);
    PairRead("," + PieceText(p) + left, p.key, p.value, "=" + value + left, left);
  }

  lemma PairRead(line: string, key: string, value: string, atEquals: string, left: string)
    requires line != "" && line[0] == ',' && ReadUntil(line[1..], SEPARATORS) == (key, atEquals)
    requires atEquals != "" && ReadUntil(atEquals[1..], SEPARATORS) == (value, left)
    ensures ReadPairs(line) == (var (pairs, rest) := ReadPairs(left); ([(key, value)] + pairs, rest))
  {
  }

  lemma SectionShape(first: string, others: string, rest: string)
    ensures "," + (first + "," + others) + rest == "," + first + ("," + others + rest)
  {
  }

  /** What stands behind a section's first piece. */
  function Behind(pieces: seq<Piece>, rest: string): string
    requires pieces != []
  {
    if pieces[1..] == [] then rest else "," + Join(PieceTexts(pieces[1..])) + rest
  }

  lemma SectionStarts(pieces: seq<Piece>, rest: string)
    requires pieces != []
    ensures "," + Join(PieceTexts(pieces)) + rest == "," + PieceText(pieces[0]) + Behind(pieces, rest)
  {
    assert PieceTexts(pieces) == [PieceText(pieces[0])] + PieceTexts(pieces[1..]);
    JoinMore(PieceText(pieces[0]), PieceTexts(pieces[1..]));
    SectionShape(PieceText(pieces[0]), Join(PieceTexts(pieces[1..])), rest);
  }

  lemma PairsGrow(pieces: seq<Piece>)
    requires pieces != []
    ensures Pairs(pieces) == [(pieces[0].key, pieces[0].value)] + Pairs(pieces[1..])
  {
  }

  lemma NothingToRead(rest: string)
    requires rest == "" || rest[0] == ' '
    ensures ReadPairs(rest) == ([], rest) && Pairs([]) == []
  {
  }

  /** A joined section reads back as its pieces, in order. */
  lemma {:induction false} ReadSection(pieces: seq<Piece>, rest: string)
    requires pieces != [] && (rest == "" || rest[0] == ' ')
    ensures ReadPairs("," + Join(PieceTexts(pieces)) + rest) == (Pairs(pieces), rest)
  {
    var first, others, left := pieces[0], pieces[1..], Behind(pieces, rest);
    SectionStarts(pieces, rest);
    ReadPiece(first, left);
    if others == [] {
      NothingToRead(rest);
    } else {
      ReadSection(others, rest);
    }
    PairsGrow(pieces);
  }

  /** The pieces the tags and fields are written as. */
  function TagPieces(tags: seq<Tag>): seq<Piece> {
    seq(|tags|, i requires 0 <= i < |tags| => Piece(OneLine(tags[i].key), OneLine(tags[i].value.GetOr(""))))
  }

  function FieldPieces(fields: seq<Field>): seq<Piece> {
    seq(|fields|, i requires 0 <= i < |fields| =>
      Piece(fields[i].key, if fields[i].value.Finite? then fields[i].value.text else ""))
  }

  ghost predicate BareFields(fields: seq<Field>) {
    forall i :: 0 <= i < |fields| ==>
      Bare(fields[i].key) && (fields[i].value.Finite? ==> Bare(fields[i].value.text))
  }

  lemma {:induction false} KeptFieldsAre(fields: seq<Field>)
    ensures forall f :: f in KeptFields(fields) <==> f in fields && f.value.Finite?
  {
    if fields == [] {
    } else {
      KeptFieldsAre(fields[1..]);
      assert forall f :: f in fields <==> f == fields[0] || f in fields[1..];
    }
  }

  lemma FieldsAsPieces(fields: seq<Field>)
    requires BareFields(fields)
    ensures FieldTexts(KeptFields(fields)) == PieceTexts(FieldPieces(KeptFields(fields)))
  {
    KeptFieldsAre(fields);
    var kept := KeptFields(fields);
    forall i | 0 <= i < |kept| ensures FieldText(kept[i]) == PieceText(FieldPieces(kept)[i]) {
      assert kept[i] in kept;
      var j :| 0 <= j < |fields| && fields[j] == kept[i];
      BareIsEscaped(fields[j].key);
      BareIsEscaped(fields[j].value.text);
    }
  }

  lemma JoinedIsSomething(pieces: seq<Piece>)
    requires pieces != []
    ensures Join(PieceTexts(pieces)) != ""
  {
    JoinMore(PieceText(pieces[0]), PieceTexts(pieces[1..]));
    assert PieceTexts(pieces) == [PieceText(pieces[0])] + PieceTexts(pieces[1..]);
  }

  /** A line is written exactly when a field is left to send. */
  lemma LineIffFields(measurement: string, tags: seq<Tag>, fields: seq<Field>, timestamp: string)
    ensures BuildLine(measurement, tags, fields, timestamp).Some? <==> exists f :: f in fields && f.value.Finite?
  {
    KeptFieldsAre(fields);
    var kept := KeptFields(fields);
    if kept == [] {
      assert FieldTexts(kept) == [];
    } else {
      assert kept[0] in kept && FieldTexts(kept)[0] == FieldText(kept[0]);
    }
  }

  lemma LineParsesTo(measurement: string, tags: seq<Tag>, fields: seq<Field>, timestamp: string)
    requires BareFields(fields) && BuildLine(measurement, tags, fields, timestamp).Some?
    ensures Parse(BuildLine(measurement, tags, fields, timestamp).value)
         == Point(OneLine(measurement), Pairs(TagPieces(KeptTags(tags))), Pairs(FieldPieces(KeptFields(fields))),
                  timestamp)
  {
    var tagPieces, fieldPieces := TagPieces(KeptTags(tags)), FieldPieces(KeptFields(fields));
    var tagPart, fieldPart := Join(PieceTexts(tagPieces)), Join(PieceTexts(fieldPieces));
    assert TagTexts(KeptTags(tags)) == PieceTexts(tagPieces);
    FieldsAsPieces(fields);
    assert fieldPieces != [];
    if tagPieces != [] {
      JoinedIsSomething(tagPieces);
    }
    LineShape(EscapeMeasurement(measurement), tagPart, fieldPart, timestamp, tagPieces != []);
    PartsReadBack(OneLine(measurement), tagPieces, fieldPieces, timestamp);
  }

  /** A tag is sent when it holds something, a field when it is a finite number; each in the order it stood in. */
  predicate IsSet(tag: Tag) {
    tag.value.Some? && tag.value.value != ""
  }

  predicate IsFinite(field: Field) {
    field.value.Finite?
  }

  lemma {:induction false} KeptTagsAreSet(tags: seq<Tag>)
    ensures KeptTags(tags) == Filter(tags, IsSet)
  {
    if tags == [] {
    } else {
      KeptTagsAreSet(tags[1..]);
    }
  }

  lemma {:induction false} KeptFieldsAreFinite(fields: seq<Field>)
    ensures KeptFields(fields) == Filter(fields, IsFinite)
  {
    if fields == [] {
    } else {
      KeptFieldsAreFinite(fields[1..]);
    }
  }

  /**
   The line is reversible: a reader that splits it where nothing is escaped gets
   the measurement, the tags in order, the fields and the timestamp, for any
   measurement and tags at all - line breaks having become spaces.
   */
  lemma LineReadsBack(measurement: string, tags: seq<Tag>, fields: seq<Field>, timestamp: string)
    requires BareFields(fields) && BuildLine(measurement, tags, fields, timestamp).Some?
    ensures var point := Parse(BuildLine(measurement, tags, fields, timestamp).value);
            var sentTags, sentFields := Filter(tags, IsSet), Filter(fields, IsFinite);
            && point.measurement == OneLine(measurement) && point.timestamp == timestamp
            && |point.tags| == |sentTags| && |point.fields| == |sentFields|
            && (forall i :: 0 <= i < |sentTags| && IsSet(sentTags[i]) ==>
                  point.tags[i] == (OneLine(sentTags[i].key), OneLine(sentTags[i].value.value)))
            && (forall i :: 0 <= i < |sentFields| && IsFinite(sentFields[i]) ==>
                  point.fields[i] == (sentFields[i].key, sentFields[i].value.text))
  {
    LineParsesTo(measurement, tags, fields, timestamp);
    KeptTagsAreSet(tags);
    KeptFieldsAreFinite(fields);
  }

  /** Text without a line break is as it was. */
  lemma {:induction false} OneLineKeeps(s: string)
    requires forall i :: 0 <= i < |s| ==> s[i] != '\r' && s[i] != '\n'
    ensures OneLine(s) == s
  {
    if s == "" {
    } else {
      OneLineKeeps(s[1..]);
    }
  }

  lemma {:induction false} BreaksBecomeOne(breaks: string, after: string)
    requires breaks != "" && (forall i :: 0 <= i < |breaks| ==> breaks[i] == '\r' || breaks[i] == '\n')
    requires after == "" || (after[0] != '\r' && after[0] != '\n')
    ensures OneLine(breaks + after) == " " + OneLine(after)
  {
    var s := breaks + after;
    if |breaks| == 1 {
      assert s[1..] == after;
    } else {
      BreaksBecomeOne(breaks[1..], after);
      assert s[1..] == breaks[1..] + after;
    }
  }

  /** And each whole run of them, wherever it stands, is one space. */
  lemma {:induction false} OneLineJoins(before: string, breaks: string, after: string)
    requires forall i :: 0 <= i < |before| ==> before[i] != '\r' && before[i] != '\n'
    requires breaks != "" && (forall i :: 0 <= i < |breaks| ==> breaks[i] == '\r' || breaks[i] == '\n')
    requires after == "" || (after[0] != '\r' && after[0] != '\n')
    ensures OneLine(before + breaks + after) == before + " " + OneLine(after)
  {
    if before == "" {
      BreaksBecomeOne(breaks, after);
      assert before + breaks + after == breaks + after;
    } else {
      OneLineJoins(before[1..], breaks, after);
      assert (before + breaks + after)[1..] == before[1..] + breaks + after;
    }
  }

  lemma LineShape(name: string, tagPart: string, fieldPart: string, timestamp: string, tagged: bool)
    ensures (if tagged then name + "," + tagPart else name) + " " + fieldPart + " " + timestamp
         == name + ((if tagged then "," + tagPart else "") + (" " + fieldPart + " " + timestamp))
  {
  }

  lemma PartsReadBack(measurement: string, tagPieces: seq<Piece>, fieldPieces: seq<Piece>, timestamp: string)
    requires fieldPieces != []
    ensures var fieldsOn := " " + Join(PieceTexts(fieldPieces)) + " " + timestamp;
            var tagsOn := (if tagPieces != [] then "," + Join(PieceTexts(tagPieces)) else "") + fieldsOn;
            Parse(Escape(measurement, MEASUREMENT_SPECIALS) + tagsOn)
            == Point(measurement, Pairs(tagPieces), Pairs(fieldPieces), timestamp)
  {
    var fieldsOn := " " + Join(PieceTexts(fieldPieces)) + " " + timestamp;
    var tagsOn := (if tagPieces != [] then "," + Join(PieceTexts(tagPieces)) else "") + fieldsOn;
    ReadEscaped(measurement, MEASUREMENT_SPECIALS, {',', ' '}, tagsOn);
    TagsReadBack(tagPieces, Join(PieceTexts(tagPieces)), fieldsOn);
    FieldsReadBack(fieldPieces, fieldsOn, timestamp);
    assert (" " + timestamp)[1..] == timestamp;
  }

  lemma TagsReadBack(pieces: seq<Piece>, tagPart: string, fieldsOn: string)
    requires tagPart == Join(PieceTexts(pieces)) && fieldsOn != "" && fieldsOn[0] == ' '
    ensures ReadPairs((if pieces != [] then "," + tagPart else "") + fieldsOn) == (Pairs(pieces), fieldsOn)
  {
    if pieces != [] {
      ReadSection(pieces, fieldsOn);
    } else {
      assert "" + fieldsOn == fieldsOn && Pairs(pieces) == [];
    }
  }

  lemma FieldsReadBack(pieces: seq<Piece>, fieldsOn: string, timestamp: string)
    requires pieces != [] && fieldsOn == " " + Join(PieceTexts(pieces)) + " " + timestamp
    ensures ReadPairs("," + fieldsOn[1..]) == (Pairs(pieces), " " + timestamp)
  {
    assert "," + fieldsOn[1..] == "," + Join(PieceTexts(pieces)) + (" " + timestamp);
    ReadSection(pieces, " " + timestamp);
  }

  // ----------------------------------------------------------------------- one line

  predicate Unbroken(s: string) {
    forall i :: 0 <= i < |s| ==> !IsNewline(s[i])
  }

  lemma {:induction false} OneLineIsUnbroken(s: string)
    ensures Unbroken(OneLine(s)) && (Unbroken(s) ==> OneLine(s) == s)
    ensures s != "" ==> OneLine(s) != ""
  {
    if s == "" {
    } else {
      OneLineIsUnbroken(s[1..]);
      if !IsNewline(s[0]) {
        assert s == [s[0]] + s[1..];
        assert Unbroken(s) ==> Unbroken(s[1..]);
      } else {
        assert !Unbroken(s);
      }
    }
  }

  lemma {:induction false} EscapeIsUnbroken(s: string, specials: set<char>)
    requires Unbroken(s)
    ensures Unbroken(Escape(s, specials))
  {
    if s == "" {
    } else {
      assert Unbroken(s[1..]);
      EscapeIsUnbroken(s[1..], specials);
    }
  }

  lemma BothUnbroken(a: string, b: string)
    ensures Unbroken(a + b) <==> Unbroken(a) && Unbroken(b)
  {
    if Unbroken(a + b) {
      assert forall i :: 0 <= i < |a| ==> a[i] == (a + b)[i];
      assert forall i :: 0 <= i < |b| ==> b[i] == (a + b)[|a| + i];
    }
  }

  ghost predicate AllUnbroken(parts: seq<string>) {
    forall i :: 0 <= i < |parts| ==> Unbroken(parts[i])
  }

  lemma {:induction false} JoinIsUnbroken(parts: seq<string>)
    ensures Unbroken(Join(parts)) <==> AllUnbroken(parts)
  {
    if |parts| > 1 {
      JoinIsUnbroken(parts[1..]);
      BothUnbroken(parts[0], "," + Join(parts[1..]));
      BothUnbroken(",", Join(parts[1..]));
      assert parts == [parts[0]] + parts[1..];
      assert parts[0] + "," + Join(parts[1..]) == parts[0] + ("," + Join(parts[1..]));
    }
  }

  lemma TagsAreUnbroken(tags: seq<Tag>)
    ensures AllUnbroken(TagTexts(tags))
  {
    forall i | 0 <= i < |tags| ensures Unbroken(TagTexts(tags)[i]) {
      OneLineIsUnbroken(tags[i].key);
      OneLineIsUnbroken(tags[i].value.GetOr(""));
      EscapeIsUnbroken(OneLine(tags[i].key), TAG_SPECIALS);
      EscapeIsUnbroken(OneLine(tags[i].value.GetOr("")), TAG_SPECIALS);
    }
  }

  /** The fields that are sent bring no line break of their own: keys and numbers are written as they are. */
  ghost predicate UnbrokenFields(fields: seq<Field>) {
    forall f :: f in fields && f.value.Finite? ==> Unbroken(f.key) && Unbroken(f.value.text)
  }

  lemma FieldIsUnbroken(f: Field)
    requires f.value.Finite?
    ensures Unbroken(FieldText(f)) <==> Unbroken(f.key) && Unbroken(f.value.text)
  {
    BothUnbroken(f.key + "=", f.value.text);
    BothUnbroken(f.key, "=");
  }

  lemma FieldsAreUnbroken(fields: seq<Field>)
    ensures AllUnbroken(FieldTexts(KeptFields(fields))) <==> UnbrokenFields(fields)
  {
    KeptFieldsAre(fields);
    var kept := KeptFields(fields);
    forall i | 0 <= i < |kept|
      ensures Unbroken(FieldTexts(kept)[i]) <==> Unbroken(kept[i].key) && Unbroken(kept[i].value.text)
    {
      assert kept[i] in kept;
      FieldIsUnbroken(kept[i]);
    }
    if AllUnbroken(FieldTexts(kept)) {
      forall f | f in fields && f.value.Finite? ensures Unbroken(f.key) && Unbroken(f.value.text) {
        var i :| 0 <= i < |kept| && kept[i] == f;
        assert Unbroken(FieldTexts(kept)[i]);
      }
    }
  }

  lemma NameIsUnbroken(measurement: string, tags: seq<Tag>)
    ensures Unbroken(EscapeMeasurement(measurement)) && Unbroken(Join(TagTexts(KeptTags(tags))))
  {
    OneLineIsUnbroken(measurement);
    EscapeIsUnbroken(OneLine(measurement), MEASUREMENT_SPECIALS);
    TagsAreUnbroken(KeptTags(tags));
    JoinIsUnbroken(TagTexts(KeptTags(tags)));
  }

  lemma ThreePartsUnbroken(prefix: string, fieldPart: string, timestamp: string)
    requires Unbroken(prefix)
    ensures Unbroken(prefix + " " + fieldPart + " " + timestamp) <==> Unbroken(fieldPart) && Unbroken(timestamp)
  {
    BothUnbroken(prefix + " " + fieldPart + " ", timestamp);
    BothUnbroken(prefix + " " + fieldPart, " ");
    BothUnbroken(prefix + " ", fieldPart);
    BothUnbroken(prefix, " ");
  }

  /**
   A point is one line, whatever the measurement and the tags hold: it breaks only
   where a field or the timestamp, which are written as they are, brings a break.
   */
  lemma LineHasNoBreak(measurement: string, tags: seq<Tag>, fields: seq<Field>, timestamp: string)
    requires BuildLine(measurement, tags, fields, timestamp).Some?
    ensures Unbroken(BuildLine(measurement, tags, fields, timestamp).value)
            <==> UnbrokenFields(fields) && Unbroken(timestamp)
  {
    var name, tagPart := EscapeMeasurement(measurement), Join(TagTexts(KeptTags(tags)));
    NameIsUnbroken(measurement, tags);
    BothUnbroken(name + ",", tagPart);
    BothUnbroken(name, ",");
    FieldsAreUnbroken(fields);
    JoinIsUnbroken(FieldTexts(KeptFields(fields)));
    ThreePartsUnbroken(if tagPart != "" then name + "," + tagPart else name,
                       Join(FieldTexts(KeptFields(fields))), timestamp);
  }
}
