/** The checklist kept in a ticket's runbook text (core/inspection.go,
    core/inspection_form.go): encoded when the ticket opens, decoded for the
    form, with submissions and photos appended after it. */
module Runbook {
  import opened Text
  import Tokens

  const PREFIX := "inspection:"
  const RESULT := "result:"

  function Encode(items: seq<string>): string { if items == [] then "" else PREFIX + Join(items, '\n') }

  method EncodeRunbook(items: seq<string>) returns (r: string)
    ensures r == Encode(items)
  {
    if items == [] {
      return "";
    }
    r := PREFIX;
    for i := 0 to |items|
      invariant r == PREFIX + Join(items[..i], '\n')
    {
      assert items[..i + 1] == items[..i] + [items[i]];
      if i > 0 {
        JoinAppend(items[..i], [items[i]], '\n');
        r := r + "\n";
      }
      r := r + items[i];
    }
    assert items[..|items|] == items;
  }

  /** A checklist line, as opposed to an empty line or a result. */
  predicate IsItem(line: string) { line != "" && !HasPrefix(line, RESULT) }

  function Items(lines: seq<string>): seq<string> {
    if lines == [] then []
    else
      var init, last := lines[..|lines| - 1], lines[|lines| - 1];
      Items(init) + (if IsItem(last) then [last] else [])
  }

  function ItemsOf(text: string): seq<string> { Items(Split(text, '\n')) }

  function Decode(runbook: string): seq<string> {
    if HasPrefix(runbook, PREFIX) then ItemsOf(runbook[|PREFIX|..]) else []
  }

  method DecodeRunbook(runbook: string) returns (out: seq<string>)
    ensures out == Decode(runbook)
  {
    if !HasPrefix(runbook, PREFIX) {
      return [];
    }
    var body := runbook[|PREFIX|..];
    if body == "" {
      return [];
    }
    var raw := Split(body, '\n');
    out := [];
    for i := 0 to |raw|
      invariant out == Items(raw[..i])
    {
      assert raw[..i + 1][..i] == raw[..i];
      if raw[i] != "" && !HasPrefix(raw[i], RESULT) {
        out := out + [raw[i]];
      }
    }
    assert raw[..|raw|] == raw;
  }

  // ---- Decoding undoes encoding -------------------------------------------------

  lemma {:induction false} ItemsAll(lines: seq<string>)
    requires forall x :: x in lines ==> IsItem(x)
    ensures Items(lines) == lines
  {
    if lines != [] {
      var init, last := lines[..|lines| - 1], lines[|lines| - 1];
      forall x | x in init ensures IsItem(x) { assert x in lines; }
      ItemsAll(init);
      assert last in lines && lines == init + [last];
    }
  }

  lemma {:induction false} ItemsMembers(lines: seq<string>)
    ensures forall x :: x in Items(lines) <==> x in lines && IsItem(x)
  {
    if lines != [] {
      ItemsMembers(lines[..|lines| - 1]);
      assert lines == lines[..|lines| - 1] + [lines[|lines| - 1]];
    }
  }

  lemma {:induction false} ItemsAppend(a: seq<string>, b: seq<string>)
    ensures Items(a + b) == Items(a) + Items(b)
  {
    if b == [] {
      assert a + b == a;
    } else {
      ItemsAppend(a, b[..|b| - 1]);
      assert (a + b)[..|a + b| - 1] == a + b[..|b| - 1];
    }
  }

  /** A line that can be on a checklist. */
  predicate Writable(item: string) { IsItem(item) && '\n' !in item }

  /** Whatever the text, only such lines come out. */
  lemma DecodedWritable(runbook: string)
    ensures forall x :: x in Decode(runbook) ==> Writable(x)
  {
    if HasPrefix(runbook, PREFIX) {
      var body := runbook[|PREFIX|..];
      ItemsMembers(Split(body, '\n'));
      SplitPieces(body, '\n');
    }
  }

  lemma EncodedBody(items: seq<string>)
    requires items != []
    ensures HasPrefix(Encode(items), PREFIX) && Encode(items)[|PREFIX|..] == Join(items, '\n')
  {}

  lemma WritableDecodes(items: seq<string>)
    requires items != [] && forall x :: x in items ==> Writable(x)
    ensures Decode(Encode(items)) == items
  {
    EncodedBody(items);
    SplitJoin(items, '\n');
    ItemsAll(items);
  }

  /** Decoding gives the list back exactly if every item is non-empty, on one
      line and not marked as a result. */
  lemma {:induction false} DecodeEncode(items: seq<string>)
    ensures Decode(Encode(items)) == items <==> forall x :: x in items ==> Writable(x)
  {
    DecodedWritable(Encode(items));
    if items != [] && forall x :: x in items ==> Writable(x) {
      WritableDecodes(items);
    }
  }

  // ---- Appended results ---------------------------------------------------------

  lemma ItemsOfAppend(a: string, b: string)
    ensures ItemsOf(a + ['\n'] + b) == ItemsOf(a) + ItemsOf(b)
  {
    SplitAppend(a, b, '\n');
    ItemsAppend(Split(a, '\n'), Split(b, '\n'));
  }

  lemma ItemsOfEmpty()
    ensures ItemsOf("") == []
  {
    assert Split("", '\n') == [""];
    assert [""][..0] == [];
  }

  /** The runbook with the line it ends in finished, ready for more. */
  function Ended(runbook: string): string {
    if runbook != "" && !HasSuffix(runbook, "\n") then runbook + "\n" else runbook
  }

  lemma BodyMore(body: string, more: string)
    requires body != "" && body[|body| - 1] == '\n'
    ensures ItemsOf(body + more) == ItemsOf(body) + ItemsOf(more)
  {
    var head := body[..|body| - 1];
    assert body == head + ['\n'] + "" && body + more == head + ['\n'] + more;
    ItemsOfAppend(head, "");
    ItemsOfAppend(head, more);
    ItemsOfEmpty();
  }

  lemma DecodeBody(body: string)
    ensures Decode(PREFIX + body) == ItemsOf(body)
  {
    assert (PREFIX + body)[|PREFIX|..] == body;
  }

  lemma EndedIs(body: string)
    ensures Ended(PREFIX + body) == if body != "" && body[|body| - 1] == '\n' then PREFIX + body
            else PREFIX + body + "\n"
  {
    var r := PREFIX + body;
    assert r[|r| - 1..] == [r[|r| - 1]];
    assert r[|r| - 1] == if body == "" then ':' else body[|body| - 1];
  }

  lemma DecodeBodyMore(body: string, more: string)
    ensures Decode(Ended(PREFIX + body) + more) == ItemsOf(body) + ItemsOf(more)
  {
    EndedIs(body);
    if body != "" && body[|body| - 1] == '\n' {
      assert PREFIX + body + more == PREFIX + (body + more);
      DecodeBody(body + more);
      BodyMore(body, more);
    } else {
      assert PREFIX + body + "\n" + more == PREFIX + (body + ['\n'] + more);
      DecodeBody(body + ['\n'] + more);
      ItemsOfAppend(body, more);
    }
  }

  lemma PrefixCut(runbook: string)
    requires HasPrefix(runbook, PREFIX)
    ensures runbook == PREFIX + runbook[|PREFIX|..]
  {}

  /** Text after a checklist adds its own lines. */
  lemma DecodeMore(runbook: string, more: string)
    requires HasPrefix(runbook, PREFIX)
    ensures Decode(Ended(runbook) + more) == Decode(runbook) + ItemsOf(more)
  {
    PrefixCut(runbook);
    DecodeBodyMore(runbook[|PREFIX|..], more);
  }

  lemma PrefixStays(runbook: string, more: string)
    requires HasPrefix(runbook, PREFIX)
    ensures HasPrefix(Ended(runbook) + more, PREFIX)
  {}

  /** A marked line and what follows it. */
  lemma ResultLine(line: string, more: string)
    requires HasPrefix(line, RESULT) && '\n' !in line
    ensures ItemsOf(line + "\n" + more) == ItemsOf(more)
  {
    assert line + "\n" + more == line + ['\n'] + more;
    ItemsOfAppend(line, more);
    SplitSingle(line, '\n');
    assert Items([line]) == [] by { assert [line][..0] == []; }
  }

  /** Carriage returns are dropped from a note. */
  function Stripped(note: string): string {
    if note == "" then "" else (if note[0] == '\r' then "" else [note[0]]) + Stripped(note[1..])
  }

  /** Exactly the carriage returns go. */
  lemma StrippedMeans(a: string, b: string)
    ensures Stripped(a + b) == Stripped(a) + Stripped(b)
    ensures forall c :: c in Stripped(a) <==> c in a && c != '\r'
  {
    StrippedChars(a);
    StrippedJoin(a, b);
  }

  lemma {:induction false} StrippedJoin(a: string, b: string)
    ensures Stripped(a + b) == Stripped(a) + Stripped(b)
  {
    if a == "" {
      assert a + b == b;
    } else {
      var rest := a[1..];
      StrippedJoin(rest, b);
      assert (a + b)[1..] == rest + b && (a + b)[0] == a[0];
      Assoc(if a[0] == '\r' then "" else [a[0]], Stripped(rest), Stripped(b));
    }
  }

  lemma Assoc(x: string, y: string, z: string)
    ensures (x + y) + z == x + (y + z)
  {}

  lemma {:induction false} StrippedChars(a: string)
    ensures forall c :: c in Stripped(a) <==> c in a && c != '\r'
  {
    if a != "" {
      StrippedChars(a[1..]);
      assert a == [a[0]] + a[1..];
    }
  }

  function Csv(checked: seq<nat>): string {
    if checked == [] then ""
    else
      var init, last := checked[..|checked| - 1], Tokens.Digits(checked[|checked| - 1]);
      if init == [] then last else Csv(init) + "," + last
  }

  function NoteLine(note: string): string { if note == "" then "" else "result:note=" + Stripped(note) + "\n" }

  function ResultBlock(stamp: string, checked: seq<nat>, note: string): string {
    "result:submitted=" + stamp + "\n" + ("result:checked=" + Csv(checked) + "\n" + NoteLine(note))
  }

  method JoinChecked(checked: seq<nat>) returns (b: string)
    ensures b == Csv(checked)
  {
    b := "";
    for i := 0 to |checked|
      invariant b == Csv(checked[..i])
    {
      assert checked[..i + 1][..i] == checked[..i];
      if i > 0 {
        b := b + ",";
      }
      b := b + Tokens.Digits(checked[i]);
    }
    assert checked[..|checked|] == checked;
  }

  method AppendInspectionResult(runbook: string, note: string, checked: seq<nat>, stamp: string) returns (b: string)
    ensures b == Ended(runbook) + ResultBlock(stamp, checked, note)
  {
    var csv := JoinChecked(checked);
    var tail := "result:checked=" + csv + "\n";
    if note != "" {
      tail := tail + ("result:note=" + Stripped(note) + "\n");
    }
    b := runbook;
    if runbook != "" && !HasSuffix(runbook, "\n") {
      b := b + "\n";
    }
    b := b + ("result:submitted=" + stamp + "\n" + tail);
  }

  lemma {:induction false} CsvPlain(checked: seq<nat>)
    ensures '\n' !in Csv(checked)
  {
    if checked != [] {
      CsvPlain(checked[..|checked| - 1]);
      Tokens.NumberDigits(checked[|checked| - 1]);
    }
  }

  lemma {:induction false} PrefixSplit(a: string, s: string)
    requires '\n' !in a
    ensures var parts := Split(s, '\n'); Split(a + s, '\n') == [a + parts[0]] + parts[1..]
  {
    var parts := Split(s, '\n');
    if a == "" {
      assert a + s == s && a + parts[0] == parts[0];
      assert [parts[0]] + parts[1..] == parts;
    } else {
      PrefixSplit(a[1..], s);
      assert (a + s)[1..] == a[1..] + s;
      assert a == [a[0]] + a[1..];
      assert [a[0]] + (a[1..] + parts[0]) == a + parts[0];
      assert ([a[1..] + parts[0]] + parts[1..])[1..] == parts[1..];
    }
  }

  /** The lines a note smuggles into the checklist: all but its first. */
  function NoteItems(note: string): seq<string> { Items(Split(Stripped(note), '\n')[1..]) }

  lemma MarkedText(mark: string, s: string)
    requires HasPrefix(mark, RESULT) && '\n' !in mark
    ensures ItemsOf(mark + s + "\n") == Items(Split(s, '\n')[1..])
  {
    var parts := Split(s, '\n');
    var text := mark + s;
    assert text + "\n" == text + ['\n'] + "";
    ItemsOfAppend(text, "");
    ItemsOfEmpty();
    PrefixSplit(mark, s);
    var first := mark + parts[0];
    assert HasPrefix(first, RESULT) by { assert first[..|RESULT|] == mark[..|RESULT|]; }
    ItemsAppend([first], parts[1..]);
    assert Items([first]) == [] by { assert [first][..0] == []; }
  }

  lemma NoteLineItems(note: string)
    ensures ItemsOf(NoteLine(note)) == if note == "" then [] else NoteItems(note)
  {
    if note == "" {
      ItemsOfEmpty();
    } else {
      assert "result:note="[..7] == RESULT;
      MarkedText("result:note=", Stripped(note));
    }
  }

  lemma ResultItems(stamp: string, checked: seq<nat>, note: string)
    requires '\n' !in stamp
    ensures ItemsOf(ResultBlock(stamp, checked, note)) == ItemsOf(NoteLine(note))
  {
    CsvPlain(checked);
    var second := "result:checked=" + Csv(checked);
    assert second[..7] == RESULT && ("result:submitted=" + stamp)[..7] == RESULT;
    ResultLine(second, NoteLine(note));
    ResultLine("result:submitted=" + stamp, second + "\n" + NoteLine(note));
  }

  /** A submission adds to the decoded checklist exactly the later lines of its
      note that look like items. */
  lemma SubmissionDecodes(runbook: string, stamp: string, checked: seq<nat>, note: string)
    requires HasPrefix(runbook, PREFIX) && '\n' !in stamp
    ensures Decode(Ended(runbook) + ResultBlock(stamp, checked, note)) ==
            Decode(runbook) + (if note == "" then [] else NoteItems(note))
  {
    DecodeMore(runbook, ResultBlock(stamp, checked, note));
    ResultItems(stamp, checked, note);
    NoteLineItems(note);
  }

  // ---- What a submission says ------------------------------------------------------

  function Printed(checked: seq<nat>): seq<string> {
    seq(|checked|, i requires 0 <= i < |checked| => Tokens.Digits(checked[i]))
  }

  lemma DigitsPlain(n: nat, c: char)
    requires !IsDigit(c)
    ensures c !in Tokens.Digits(n)
  {
    Tokens.NumberDigits(n);
  }

  lemma {:induction false} CsvIsJoin(checked: seq<nat>)
    ensures Csv(checked) == Join(Printed(checked), ',')
  {
    if checked != [] {
      var init, last := checked[..|checked| - 1], checked[|checked| - 1];
      CsvIsJoin(init);
      assert Printed(checked) == Printed(init) + [Tokens.Digits(last)];
      if init != [] {
        JoinAppend(Printed(init), [Tokens.Digits(last)], ',');
      }
    }
  }

  /** The checked boxes can be read back from their line. */
  lemma CsvReads(checked: seq<nat>)
    requires checked != []
    ensures var parts := Split(Csv(checked), ',');
            |parts| == |checked| && forall i :: 0 <= i < |checked| ==> Tokens.Number(parts[i]) == Some(checked[i])
  {
    CsvIsJoin(checked);
    forall p | p in Printed(checked) ensures ',' !in p {
      var i :| 0 <= i < |checked| && Printed(checked)[i] == p;
      DigitsPlain(checked[i], ',');
    }
    SplitJoin(Printed(checked), ',');
    forall i | 0 <= i < |checked| ensures Tokens.Number(Printed(checked)[i]) == Some(checked[i]) {
      Tokens.NumberDigits(checked[i]);
    }
  }

  lemma Lines(a: string, b: string)
    requires '\n' !in a
    ensures Split(a + "\n" + b, '\n') == [a] + Split(b, '\n')
  {
    assert a + "\n" + b == a + ['\n'] + b;
    SplitAppend(a, b, '\n');
    SplitSingle(a, '\n');
  }

  /** A submission is three lines, or two without a note: when, which boxes, and
      the note. */
  lemma BlockLines(stamp: string, checked: seq<nat>, note: string)
    requires '\n' !in stamp
    ensures Split(ResultBlock(stamp, checked, note), '\n') ==
            ["result:submitted=" + stamp, "result:checked=" + Csv(checked)] +
            (if note == "" then [""] else Split("result:note=" + Stripped(note), '\n') + [""])
  {
    CsvPlain(checked);
    var first, second := "result:submitted=" + stamp, "result:checked=" + Csv(checked);
    Lines(second, NoteLine(note));
    Lines(first, second + "\n" + NoteLine(note));
    assert Split("", '\n') == [""];
    if note != "" {
      var text := "result:note=" + Stripped(note);
      assert text + "\n" == text + ['\n'] + "";
      SplitAppend(text, "", '\n');
    }
  }

  // ---- Any sequence of submissions and photos ----------------------------------------

  datatype Addition = Submission(stamp: string, checked: seq<nat>, note: string) | Photo(path: string)

  function Added(runbook: string, a: Addition): string {
    match a
    case Submission(stamp, checked, note) => Ended(runbook) + ResultBlock(stamp, checked, note)
    case Photo(path) => Ended(runbook) + ("result:photo=" + path + "\n")
  }

  function AddedAll(runbook: string, additions: seq<Addition>): string
    decreases |additions|
  {
    if additions == [] then runbook
    else Added(AddedAll(runbook, additions[..|additions| - 1]), additions[|additions| - 1])
  }

  /** The time stamp is one line. */
  predicate Stamped(a: Addition) { a.Submission? ==> '\n' !in a.stamp }

  /** What an addition puts into the decoded checklist: the lines after its first
      that look like items. */
  function Extra(a: Addition): seq<string> {
    match a
    case Submission(_, _, note) => if note == "" then [] else NoteItems(note)
    case Photo(path) => Items(Split(path, '\n')[1..])
  }

  function Extras(additions: seq<Addition>): seq<string> {
    if additions == [] then [] else Extras(additions[..|additions| - 1]) + Extra(additions[|additions| - 1])
  }

  lemma AdditionDecodes(runbook: string, a: Addition)
    requires HasPrefix(runbook, PREFIX) && Stamped(a)
    ensures HasPrefix(Added(runbook, a), PREFIX) && Decode(Added(runbook, a)) == Decode(runbook) + Extra(a)
  {
    match a
    case Submission(stamp, checked, note) =>
      SubmissionDecodes(runbook, stamp, checked, note);
      PrefixStays(runbook, ResultBlock(stamp, checked, note));
    case Photo(path) =>
      assert "result:photo="[..7] == RESULT;
      MarkedText("result:photo=", path);
      DecodeMore(runbook, "result:photo=" + path + "\n");
      PrefixStays(runbook, "result:photo=" + path + "\n");
  }

  ghost predicate AllStamped(additions: seq<Addition>) { forall i :: 0 <= i < |additions| ==> Stamped(additions[i]) }

  lemma ConcatThree(a: seq<string>, b: seq<string>, c: seq<string>)
    ensures (a + b) + c == a + (b + c)
  {}

  /** Whatever is added to a checklist, the form shows it and then the items that
      the additions put in. */
  lemma {:induction false} AdditionsDecode(runbook: string, additions: seq<Addition>)
    requires HasPrefix(runbook, PREFIX) && AllStamped(additions)
    ensures HasPrefix(AddedAll(runbook, additions), PREFIX)
    ensures Decode(AddedAll(runbook, additions)) == Decode(runbook) + Extras(additions)
    decreases |additions|
  {
    if additions == [] {
      assert Decode(runbook) + [] == Decode(runbook);
    } else {
      var init, last := additions[..|additions| - 1], additions[|additions| - 1];
      AdditionsDecode(runbook, init);
      AdditionDecodes(AddedAll(runbook, init), last);
      ConcatThree(Decode(runbook), Extras(init), Extra(last));
    }
  }

  lemma {:induction false} NoExtras(additions: seq<Addition>)
    ensures Extras(additions) == [] <==> forall a :: a in additions ==> Extra(a) == []
  {
    if additions != [] {
      var init, last := additions[..|additions| - 1], additions[|additions| - 1];
      NoExtras(init);
      assert additions == init + [last];
    }
  }

  /** So it shows the checklist the ticket was opened with exactly if no addition
      has a further line that looks like an item. */
  lemma ChecklistStays(items: seq<string>, additions: seq<Addition>)
    requires items != [] && (forall x :: x in items ==> Writable(x)) && AllStamped(additions)
    ensures Decode(AddedAll(Encode(items), additions)) == items + Extras(additions)
    ensures Decode(AddedAll(Encode(items), additions)) == items <==> forall a :: a in additions ==> Extra(a) == []
  {
    WritableDecodes(items);
    EncodedBody(items);
    AdditionsDecode(Encode(items), additions);
    NoExtras(additions);
    assert items + Extras(additions) == items <==> Extras(additions) == [] by {
      assert |items + Extras(additions)| == |items| + |Extras(additions)|;
      assert items + [] == items;
    }
  }

  lemma {:induction false} StrippedPlain(note: string)
    requires '\n' !in note
    ensures '\n' !in Stripped(note)
  {
    if note != "" {
      StrippedPlain(note[1..]);
    }
  }

  /** One-line notes and paths have none. */
  lemma OneLineAddsNothing(a: Addition)
    requires '\n' !in match a { case Submission(_, _, note) => note case Photo(path) => path }
    ensures Extra(a) == []
  {
    match a
    case Submission(_, _, note) =>
      StrippedPlain(note);
      SplitSingle(Stripped(note), '\n');
    case Photo(path) =>
      SplitSingle(path, '\n');
  }

  /** A second line in a note becomes a checklist item. */
  lemma NoteAddsItem(runbook: string, stamp: string, checked: seq<nat>, item: string)
    requires HasPrefix(runbook, PREFIX) && '\n' !in stamp && Writable(item) && '\r' !in item
    ensures Decode(Ended(runbook) + ResultBlock(stamp, checked, "\n" + item)) == Decode(runbook) + [item]
  {
    SubmissionDecodes(runbook, stamp, checked, "\n" + item);
    NoReturns("\n" + item);
    SecondLine(item);
  }

  lemma SecondLine(item: string)
    requires Writable(item)
    ensures Items(Split("\n" + item, '\n')[1..]) == [item]
  {
    assert "\n" + item == "" + ['\n'] + item;
    SplitAppend("", item, '\n');
    SplitSingle(item, '\n');
    assert Items([item]) == [item] by { assert [item][..0] == []; }
    assert ([""] + [item])[1..] == [item];
  }

  lemma {:induction false} NoReturns(s: string)
    requires '\r' !in s
    ensures Stripped(s) == s
  {
    if s != "" {
      NoReturns(s[1..]);
    }
  }

  // ---- Checked boxes ------------------------------------------------------------------

  ghost predicate Ascending(xs: seq<int>) { forall i, j :: 0 <= i < j < |xs| ==> xs[i] < xs[j] }

  ghost predicate Distinct(xs: seq<int>) { forall i, j :: 0 <= i < j < |xs| ==> xs[i] != xs[j] }

  /** `n` is one of the submitted indices. */
  ghost predicate Submitted(values: seq<string>, n: int) {
    n >= 0 && exists i :: 0 <= i < |values| && Tokens.ParseInt(values[i]) == Some(n)
  }

  lemma InsertedAscending(s: seq<int>, x: int, k: nat)
    requires Ascending(s) && k <= |s| && (k > 0 ==> s[k - 1] < x) && forall m :: k <= m < |s| ==> s[m] > x
    ensures Ascending(s[..k] + [x] + s[k..])
  {}

  /** Move the last element of `a[..i + 1]` down to its place by swaps. */
  method SinkInto(a: array<int>, i: nat) returns (ghost j: nat)
    requires i < a.Length && Ascending(a[..i]) && a[i] !in a[..i]
    modifies a
    ensures j <= i && a[..i + 1] == old(a[..j]) + [old(a[i])] + old(a[j..i]) && Ascending(a[..i + 1])
    ensures a[i + 1..] == old(a[i + 1..])
  {
    ghost var s, x := a[..i], a[i];
    var k := i;
    while k > 0 && a[k - 1] > a[k]
      invariant k <= i && a[k] == x
      invariant forall m :: 0 <= m < k ==> a[m] == s[m]
      invariant forall m :: k < m <= i ==> a[m] == s[m - 1] && a[m] > x
      invariant a[i + 1..] == old(a[i + 1..])
    {
      a[k - 1], a[k] := a[k], a[k - 1];
      k := k - 1;
    }
    j := k;
    assert k > 0 ==> s[k - 1] in s;
    forall m | k <= m < |s| ensures s[m] > x { assert a[m + 1] == s[m]; }
    assert a[..i + 1] == s[..k] + [x] + s[k..];
    InsertedAscending(s, x, k);
  }

  method Dedup(values: seq<string>) returns (out: seq<int>)
    ensures Distinct(out) && forall n :: n in out <==> Submitted(values, n)
  {
    out := [];
    var seen: set<int> := {};
    for i := 0 to |values|
      invariant Distinct(out) && (forall n :: n in out <==> n in seen)
      invariant forall n :: n in out <==> Submitted(values[..i], n)
    {
      var n := Tokens.ParseInt(values[i]);
      SubmittedMore(values, i);
      if n.Some? && n.value >= 0 && n.value !in seen {
        seen := seen + {n.value};
        out := out + [n.value];
      }
    }
    assert values[..|values|] == values;
  }

  lemma SubmittedMore(values: seq<string>, i: nat)
    requires i < |values|
    ensures forall n :: Submitted(values[..i + 1], n) <==>
                        Submitted(values[..i], n) || (n >= 0 && Tokens.ParseInt(values[i]) == Some(n))
  {
    forall n | Submitted(values[..i], n) ensures Submitted(values[..i + 1], n) {
      var j :| 0 <= j < i && Tokens.ParseInt(values[..i][j]) == Some(n);
      assert values[..i + 1][j] == values[..i][j];
    }
    forall n | n >= 0 && Tokens.ParseInt(values[i]) == Some(n) ensures Submitted(values[..i + 1], n) {
      assert values[..i + 1][i] == values[i];
    }
    forall n | Submitted(values[..i + 1], n)
      ensures Submitted(values[..i], n) || Tokens.ParseInt(values[i]) == Some(n)
    {
      var j :| 0 <= j < i + 1 && Tokens.ParseInt(values[..i + 1][j]) == Some(n);
      assert j < i ==> values[..i][j] == values[..i + 1][j];
    }
  }

  /** Each valid index once, in ascending order. */
  method ParseCheckedIndices(values: seq<string>) returns (r: seq<int>)
    ensures Ascending(r) && forall n :: n in r <==> Submitted(values, n)
  {
    var out := Dedup(values);
    var a := new int[|out|](k requires 0 <= k < |out| => out[k]);
    assert a[..] == out;
    for i := 0 to a.Length
      invariant Ascending(a[..i]) && a[i..] == out[i..]
      invariant forall n :: n in a[..i] <==> n in out[..i]
    {
      assert a[i] == a[i..][0] == out[i];
      forall k | 0 <= k < i ensures a[k] != a[i] {
        assert a[k] in a[..i];
        var m :| 0 <= m < i && out[..i][m] == a[k];
      }
      var _ := SinkInto(a, i);
      assert out[..i + 1] == out[..i] + [out[i]];
    }
    r := a[..];
    assert a[..a.Length] == a[..] && out[..|out|] == out;
  }
}
