/** Which rows of a backup are taken and what is stored of them, told of the file's own columns. */
module ImportAcceptance {
  import opened Wrappers
  import opened Text
  import opened Json
  import Targets
  import opened TargetStore
  import opened TargetOrder
  import opened ImportRows

  // ------------------------------------------------------------------------ rows a run wrote

  predicate Digit(c: char) {
    '0' <= c <= '9'
  }

  /** As toISOString prints: digits where the pattern has them, and the pattern's own signs elsewhere. */
  predicate PrintedLike(s: string, pattern: string) {
    && |s| == |pattern|
    && forall k :: 0 <= k < |s| ==> if Digit(pattern[k]) then Digit(s[k]) else s[k] == pattern[k]
  }

  /** An instant that exists, spelled as it is printed, and no more than two days ahead of the clock. */
  ghost predicate AtAnInstant(env: Env, now: int, v: Value) {
    && v.Text? && PrintedLike(v.text, "0000-00-00T00:00:00.000Z")
    && exists instant :: env.parse(v.text) == Some(instant) && env.iso(instant) == v.text
                         && instant <= now + 2 * 24 * 60 * 60 * 1000
  }

  predicate IsNumber(entry: Entry, column: string) {
    column in entry && entry[column].Number?
  }

  predicate NumberOrNothing(entry: Entry, column: string) {
    column !in entry || entry[column] == Null || entry[column].Number?
  }

  predicate Below(entry: Entry, column: string) {
    column in entry && entry[column].Number? && entry[column].value < 0.0
  }

  predicate MinusOne(entry: Entry, column: string) {
    column in entry && entry[column] == Number(-1.0)
  }

  /** Something is said to have gone wrong: a message, or any other value that counts as one. */
  predicate SaysItFailed(entry: Entry) {
    && "error" in entry && entry["error"] != Null && entry["error"] != Flag(false)
    && entry["error"] != Number(0.0) && entry["error"] != Text("")
  }

  ghost predicate TypeFits(entry: Entry) {
    "type" in entry && (entry["type"] == Text("auto") || entry["type"] == Text("custom"))
  }

  ghost predicate InstantFits(env: Env, now: int, entry: Entry) {
    "created" in entry && AtAnInstant(env, now, entry["created"])
  }

  predicate OptionsFit(entry: Entry) {
    && NumberOrNothing(entry, "jitter") && NumberOrNothing(entry, "packetLoss")
    && NumberOrNothing(entry, "downloadLatency") && NumberOrNothing(entry, "uploadLatency")
    && NumberOrNothing(entry, "bytesDownloaded") && NumberOrNothing(entry, "bytesUploaded")
    && NumberOrNothing(entry, "time") && NumberOrNothing(entry, "serverId")
  }

  predicate ReadingsFit(entry: Entry) {
    IsNumber(entry, "ping") && IsNumber(entry, "download") && IsNumber(entry, "upload")
  }

  /** Below zero stands only beside a failure: a message, or the placeholder in all three readings. */
  predicate SignsFit(entry: Entry) {
    Below(entry, "ping") || Below(entry, "download") || Below(entry, "upload") ==>
      SaysItFailed(entry) || (MinusOne(entry, "ping") && MinusOne(entry, "download") && MinusOne(entry, "upload"))
  }

  /** A scheduled test or one run by hand, as some run could have stored it. */
  ghost predicate OfARun(env: Env, now: int, entry: Entry) {
    && TypeFits(entry) && InstantFits(env, now, entry) && OptionsFit(entry) && ReadingsFit(entry) && SignsFit(entry)
  }

  // ------------------------------------------------------------------- exactly those are taken

  lemma LooksIsoIsPrinted(s: string)
    requires LooksIso(s)
    ensures PrintedLike(s, "0000-00-00T00:00:00.000Z")
  {
    var pattern := "0000-00-00T00:00:00.000Z";
    forall k | 0 <= k < |s| ensures if Digit(pattern[k]) then Digit(s[k]) else s[k] == pattern[k] {
      if k < 4 { assert s[0..4][k] == s[k]; }
      else if 5 <= k < 7 { assert s[5..7][k - 5] == s[k]; }
      else if 8 <= k < 10 { assert s[8..10][k - 8] == s[k]; }
      else if 11 <= k < 13 { assert s[11..13][k - 11] == s[k]; }
      else if 14 <= k < 16 { assert s[14..16][k - 14] == s[k]; }
      else if 17 <= k < 19 { assert s[17..19][k - 17] == s[k]; }
      else if 20 <= k < 23 { assert s[20..23][k - 20] == s[k]; }
    }
  }

  lemma DigitsBetween(s: string, pattern: string, from: nat, to: nat)
    requires PrintedLike(s, pattern) && from < to <= |s| && forall k :: from <= k < to ==> Digit(pattern[k])
    ensures IsDigits(s[from..to])
  {
    forall i | 0 <= i < to - from ensures '0' <= s[from..to][i] <= '9' {
      assert Digit(pattern[from + i]) && s[from..to][i] == s[from + i];
    }
  }

  lemma SignAt(s: string, pattern: string, k: nat)
    requires PrintedLike(s, pattern) && k < |s| && !Digit(pattern[k])
    ensures s[k] == pattern[k]
  {
  }

  /** Where the pattern has its signs, and digits everywhere else. */
  predicate IsoPattern(p: string) {
    && |p| == 24 && p[4] == '-' && p[7] == '-' && p[10] == 'T' && p[13] == ':' && p[16] == ':' && p[19] == '.'
    && p[23] == 'Z'
    && forall k :: 0 <= k < 24 && k != 4 && k != 7 && k != 10 && k != 13 && k != 16 && k != 19 && k != 23 ==>
         Digit(p[k])
  }

  lemma ThePatternIsIso()
    ensures IsoPattern("0000-00-00T00:00:00.000Z")
  {
  }

  lemma PrintedLooksIso(s: string, pattern: string)
    requires IsoPattern(pattern) && PrintedLike(s, pattern)
    ensures LooksIso(s)
  {
    DigitsBetween(s, pattern, 0, 4);
    DigitsBetween(s, pattern, 5, 7);
    DigitsBetween(s, pattern, 8, 10);
    DigitsBetween(s, pattern, 11, 13);
    DigitsBetween(s, pattern, 14, 16);
    DigitsBetween(s, pattern, 17, 19);
    DigitsBetween(s, pattern, 20, 23);
    SignAt(s, pattern, 4);
    SignAt(s, pattern, 7);
    SignAt(s, pattern, 10);
    SignAt(s, pattern, 13);
    SignAt(s, pattern, 16);
    SignAt(s, pattern, 19);
    SignAt(s, pattern, 23);
  }

  lemma CreatedIff(env: Env, now: int, entry: Entry)
    ensures CreatedOk(env, now, At(entry, "created")) <==> InstantFits(env, now, entry)
  {
    if "created" in entry && entry["created"].Text? {
      var text := entry["created"].text;
      if LooksIso(text) { LooksIsoIsPrinted(text); }
      if PrintedLike(text, "0000-00-00T00:00:00.000Z") {
        ThePatternIsIso();
        PrintedLooksIso(text, "0000-00-00T00:00:00.000Z");
      }
    }
  }

  lemma ImportablesIff(entry: Entry)
    ensures (forall c :: c in NUMERIC ==> Importable(At(entry, c)))
            && (forall c :: c in REQUIRED ==> Measured(At(entry, c)))
            <==> OptionsFit(entry) && ReadingsFit(entry)
  {
  }

  lemma ImpossibleIff(entry: Entry)
    ensures Impossible(entry) <==> !SignsFit(entry)
  {
  }

  /**
   An element of the file is taken exactly when it is an object some run could have
   stored; one that is not breaks a rule by name - its type, its instant, a column
   that is no number, a reading that is missing, or one below zero beside no failure.
   */
  lemma TakenIff(env: Env, now: int, listed: seq<Targets.Target>, element: Value)
    ensures Judge(env, now, listed, element).Some? <==> element.Object? && OfARun(env, now, element.fields)
  {
    if element.Object? {
      CreatedIff(env, now, element.fields);
      ImportablesIff(element.fields);
      ImpossibleIff(element.fields);
    }
  }

  // --------------------------------------------------------------- and what is stored of them

  /** The column as the file has it, and its default where the file has none. */
  ghost predicate StoredAsIs(entry: Entry, stored: Entry, column: string, default: Value) {
    column in stored && stored[column] == if column in entry then entry[column] else default
  }

  /** A figure below zero was never measured. */
  ghost predicate StoredFigure(entry: Entry, stored: Entry, column: string, default: Value) {
    && column in stored
    && stored[column] == if Below(entry, column) then Null else if column in entry then entry[column] else default
  }

  /** Text, trimmed, where it is what the column is for; nothing otherwise. */
  ghost predicate StoredText(entry: Entry, stored: Entry, column: string, fits: string -> bool) {
    && column in stored
    && stored[column] == if column in entry && entry[column].Text? && fits(Trim(entry[column].text))
                         then Text(Trim(entry[column].text)) else Null
  }

  ghost predicate FiguresStored(entry: Entry, stored: Entry) {
    && StoredFigure(entry, stored, "jitter", Null) && StoredFigure(entry, stored, "packetLoss", Null)
    && StoredFigure(entry, stored, "downloadLatency", Null) && StoredFigure(entry, stored, "uploadLatency", Null)
    && StoredFigure(entry, stored, "bytesDownloaded", Null) && StoredFigure(entry, stored, "bytesUploaded", Null)
    && StoredFigure(entry, stored, "time", Number(0.0))
  }

  ghost predicate ReadingsStored(entry: Entry, stored: Entry) {
    && StoredAsIs(entry, stored, "type", Null) && StoredAsIs(entry, stored, "created", Null)
    && StoredAsIs(entry, stored, "ping", Null) && StoredAsIs(entry, stored, "download", Null)
    && StoredAsIs(entry, stored, "upload", Null) && StoredAsIs(entry, stored, "error", Null)
  }

  ghost predicate LabelsStored(entry: Entry, stored: Entry) {
    && StoredAsIs(entry, stored, "resultId", Null) && StoredAsIs(entry, stored, "provider", Null)
    && StoredAsIs(entry, stored, "serverId", Number(0.0)) && StoredAsIs(entry, stored, "serverName", Null)
    && StoredAsIs(entry, stored, "serverHost", Null) && StoredAsIs(entry, stored, "serverLocation", Null)
  }

  /** The target the row is filed under: the first of the name it carries, or none. */
  ghost predicate TargetStored(listed: seq<Targets.Target>, entry: Entry, stored: Entry) {
    && "targetId" in stored
    && (forall i | 0 <= i < |listed| && At(entry, "targetName") == Some(Text(listed[i].name))
                   && FirstAt(listed, listed[i].name, i) :: stored["targetId"] == Number(listed[i].id as real))
    && ((forall i :: 0 <= i < |listed| ==> At(entry, "targetName") != Some(Text(listed[i].name))) ==>
          stored["targetId"] == Null)
  }

  ghost predicate HopsStored(env: Env, entry: Entry, stored: Entry) {
    && "hops" in stored
    && stored["hops"] == if "hops" in entry && IsHopTable(entry["hops"]) then Text(env.writeHops(entry["hops"]))
                         else Null
  }

  lemma FigureIsStored(env: Env, listed: seq<Targets.Target>, entry: Entry, c: string)
    requires c in NON_NEGATIVE && c in COLUMNS && c !in {"isp", "externalIp", "targetId", "id", "targetName"}
    requires c !in {"hops", "error", "resultId"}
    ensures StoredFigure(entry, Stored(Rewritten(env, listed, entry)), c, Default(c))
  {
    StoredAt(env, listed, entry, c);
  }

  lemma ColumnIsStored(env: Env, listed: seq<Targets.Target>, entry: Entry, c: string)
    requires c !in NON_NEGATIVE && c in COLUMNS && c !in {"isp", "externalIp", "targetId", "id", "targetName"}
    requires c != "hops" && (c in {"error", "resultId"} ==> Default(c) == Null)
    ensures StoredAsIs(entry, Stored(Rewritten(env, listed, entry)), c, Default(c))
  {
    StoredAt(env, listed, entry, c);
  }

  predicate IsFigure(c: string) {
    && c in NON_NEGATIVE && c in COLUMNS && c !in {"isp", "externalIp", "targetId", "id", "targetName"}
    && c !in {"hops", "error", "resultId"}
  }

  predicate IsPlain(c: string) {
    && c !in NON_NEGATIVE && c in COLUMNS && c !in {"isp", "externalIp", "targetId", "id", "targetName"}
    && c != "hops" && (c in {"error", "resultId"} ==> Default(c) == Null)
  }

  lemma FiguresByName()
    ensures IsFigure("jitter") && IsFigure("packetLoss") && IsFigure("downloadLatency") && IsFigure("uploadLatency")
    ensures IsFigure("bytesDownloaded") && IsFigure("bytesUploaded") && IsFigure("time")
    ensures Default("jitter") == Default("packetLoss") == Default("downloadLatency") == Default("uploadLatency") == Null
    ensures Default("bytesDownloaded") == Default("bytesUploaded") == Null && Default("time") == Number(0.0)
  {
  }

  lemma ReadingsByName()
    ensures IsPlain("type") && IsPlain("created") && IsPlain("ping") && IsPlain("download") && IsPlain("upload")
    ensures IsPlain("error")
    ensures Default("created") == Default("ping") == Default("download") == Default("upload") == Null
    ensures Default("error") == Null
  {
  }

  lemma LabelsByName()
    ensures IsPlain("resultId") && IsPlain("provider") && IsPlain("serverId") && IsPlain("serverName")
    ensures IsPlain("serverHost") && IsPlain("serverLocation") && Default("serverId") == Number(0.0)
    ensures Default("resultId") == Default("provider") == Default("serverName") == Default("serverHost") == Null
    ensures Default("serverLocation") == Null
  {
  }

  lemma FiguresAreStored(env: Env, listed: seq<Targets.Target>, entry: Entry)
    ensures FiguresStored(entry, Stored(Rewritten(env, listed, entry)))
  {
    FiguresByName();
    FigureIsStored(env, listed, entry, "jitter");
    FigureIsStored(env, listed, entry, "packetLoss");
    FigureIsStored(env, listed, entry, "downloadLatency");
    FigureIsStored(env, listed, entry, "uploadLatency");
    FigureIsStored(env, listed, entry, "bytesDownloaded");
    FigureIsStored(env, listed, entry, "bytesUploaded");
    FigureIsStored(env, listed, entry, "time");
  }

  lemma ReadingsAreStored(env: Env, listed: seq<Targets.Target>, entry: Entry)
    requires TypeFits(entry)
    ensures ReadingsStored(entry, Stored(Rewritten(env, listed, entry)))
  {
    ReadingsByName();
    ColumnIsStored(env, listed, entry, "type");
    ColumnIsStored(env, listed, entry, "created");
    ColumnIsStored(env, listed, entry, "ping");
    ColumnIsStored(env, listed, entry, "download");
    ColumnIsStored(env, listed, entry, "upload");
    ColumnIsStored(env, listed, entry, "error");
  }

  lemma LabelsAreStored(env: Env, listed: seq<Targets.Target>, entry: Entry)
    ensures LabelsStored(entry, Stored(Rewritten(env, listed, entry)))
  {
    LabelsByName();
    ColumnIsStored(env, listed, entry, "resultId");
    ColumnIsStored(env, listed, entry, "provider");
    ColumnIsStored(env, listed, entry, "serverId");
    ColumnIsStored(env, listed, entry, "serverName");
    ColumnIsStored(env, listed, entry, "serverHost");
    ColumnIsStored(env, listed, entry, "serverLocation");
  }

  lemma HopsAreStored(env: Env, listed: seq<Targets.Target>, entry: Entry)
    ensures HopsStored(env, entry, Stored(Rewritten(env, listed, entry)))
  {
    StoredAt(env, listed, entry, "hops");
  }

  lemma LinesAreStored(env: Env, listed: seq<Targets.Target>, entry: Entry)
    ensures var stored := Stored(Rewritten(env, listed, entry));
            && StoredText(entry, stored, "isp", isp => isp != "")
            && StoredText(entry, stored, "externalIp", env.isAddress)
  {
    StoredAre(Rewritten(env, listed, entry));
    RewrittenAt(env, listed, entry, "isp");
    RewrittenAt(env, listed, entry, "externalIp");
  }

  lemma PlacedOnFirst(listed: seq<Targets.Target>, name: Option<Value>, i: nat)
    requires DistinctIds(listed) && i < |listed| && name == Some(Text(listed[i].name))
    requires FirstAt(listed, listed[i].name, i)
    ensures Placed(listed, name) == Number(listed[i].id as real)
  {
    FirstNamedIs(listed, listed[i].name);
  }

  lemma PlacedNowhere(listed: seq<Targets.Target>, name: Option<Value>)
    requires forall i :: 0 <= i < |listed| ==> name != Some(Text(listed[i].name))
    ensures Placed(listed, name) == Null
  {
    if name.Some? && name.value.Text? { FirstNamedIs(listed, name.value.text); }
  }

  lemma PlaceIsStored(env: Env, listed: seq<Targets.Target>, entry: Entry)
    ensures At(Stored(Rewritten(env, listed, entry)), "targetId") == Some(Placed(listed, At(entry, "targetName")))
  {
    StoredAre(Rewritten(env, listed, entry));
    RewrittenAt(env, listed, entry, "targetId");
  }

  lemma TargetIsStored(env: Env, listed: seq<Targets.Target>, entry: Entry)
    requires DistinctIds(listed)
    ensures TargetStored(listed, entry, Stored(Rewritten(env, listed, entry)))
  {
    var name := At(entry, "targetName");
    PlaceIsStored(env, listed, entry);
    forall i | 0 <= i < |listed| && name == Some(Text(listed[i].name)) && FirstAt(listed, listed[i].name, i)
      ensures Placed(listed, name) == Number(listed[i].id as real)
    {
      PlacedOnFirst(listed, name, i);
    }
    if forall i :: 0 <= i < |listed| ==> name != Some(Text(listed[i].name)) {
      PlacedNowhere(listed, name);
    }
  }

  /** What is stored of a row that is taken, column by column. */
  lemma StoredOfTaken(env: Env, now: int, listed: seq<Targets.Target>, entry: Entry)
    requires DistinctIds(listed) && OfARun(env, now, entry)
    ensures Judge(env, now, listed, Object(entry)).Some?
    ensures var stored := Stored(Judge(env, now, listed, Object(entry)).value);
            && ReadingsStored(entry, stored) && FiguresStored(entry, stored) && LabelsStored(entry, stored)
            && HopsStored(env, entry, stored) && TargetStored(listed, entry, stored)
            && StoredText(entry, stored, "isp", isp => isp != "")
            && StoredText(entry, stored, "externalIp", env.isAddress)
  {
    TakenIff(env, now, listed, Object(entry));
    FiguresAreStored(env, listed, entry);
    ReadingsAreStored(env, listed, entry);
    LabelsAreStored(env, listed, entry);
    HopsAreStored(env, listed, entry);
    LinesAreStored(env, listed, entry);
    TargetIsStored(env, listed, entry);
    JudgeIs(env, now, listed, entry);
  }

  // -------------------------------------------------------------------------- the hop table

  /** One hop of a trace: which one, who answered, in how many milliseconds each time, and how often nobody did. */
  datatype Hop = Hop(number: nat, address: Option<string>, rtt: seq<real>, lost: nat)

  function Spelled(hop: Hop): Value {
    Object(map["hop" := Number(hop.number as real),
               "address" := if hop.address.Some? then Text(hop.address.value) else Null,
               "rtt" := List(seq(|hop.rtt|, i requires 0 <= i < |hop.rtt| => Number(hop.rtt[i]))),
               "lost" := Number(hop.lost as real)])
  }

  lemma SpelledAt(hop: Hop)
    ensures var fields := Spelled(hop).fields;
            && At(fields, "hop") == Some(Number(hop.number as real))
            && At(fields, "lost") == Some(Number(hop.lost as real))
            && At(fields, "address") == Some(if hop.address.Some? then Text(hop.address.value) else Null)
            && At(fields, "rtt") == Some(List(seq(|hop.rtt|, i requires 0 <= i < |hop.rtt| => Number(hop.rtt[i]))))
  {
  }

  lemma SpelledIsAHop(hop: Hop)
    requires hop.number >= 1
    ensures IsHop(Spelled(hop))
            <==> |hop.rtt| <= 10 && forall i :: 0 <= i < |hop.rtt| ==> hop.rtt[i] >= 0.0
  {
    SpelledAt(hop);
    var items := Spelled(hop).fields["rtt"].items;
    assert forall i :: 0 <= i < |hop.rtt| ==> items[i] == Number(hop.rtt[i]) && items[i] in items;
  }

  /** A trace is kept exactly when it has at most 20 hops, of at most 10 times each, none negative, numbered apart. */
  lemma TraceIsKeptIff(hops: seq<Hop>)
    requires forall i :: 0 <= i < |hops| ==> hops[i].number >= 1
    ensures IsHopTable(List(seq(|hops|, i requires 0 <= i < |hops| => Spelled(hops[i]))))
            <==> && |hops| <= 20
                 && (forall i :: 0 <= i < |hops| ==> |hops[i].rtt| <= 10)
                 && (forall i, j :: 0 <= i < |hops| && 0 <= j < |hops[i].rtt| ==> hops[i].rtt[j] >= 0.0)
                 && (forall i, j :: 0 <= i < j < |hops| ==> hops[i].number != hops[j].number)
  {
    var table := List(seq(|hops|, i requires 0 <= i < |hops| => Spelled(hops[i])));
    forall i | 0 <= i < |hops|
      ensures table.items[i] == Spelled(hops[i])
      ensures At(table.items[i].fields, "hop") == Some(Number(hops[i].number as real))
      ensures IsHop(table.items[i])
              <==> |hops[i].rtt| <= 10 && forall j :: 0 <= j < |hops[i].rtt| ==> hops[i].rtt[j] >= 0.0
    {
      SpelledAt(hops[i]);
      SpelledIsAHop(hops[i]);
    }
  }
}
