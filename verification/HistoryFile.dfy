/** src/up-history.c: writing a history array to a file and reading it back. */
module HistoryFile {
  import opened DecimalText
  import opened FlatMaps
  import opened HistoryItem
  import opened Wrappers

  predicate Fresh(item: Item, now: int, maxAge: nat) { now - item.time <= maxAge }

  /** The entries that a save does not cull, in order. */
  function Culled(items: seq<Item>, now: int, maxAge: nat): (r: seq<Item>)
    ensures forall i :: 0 <= i < |r| ==> Fresh(r[i], now, maxAge)
  {
    if items == [] then []
    else
      var init, last := items[..|items| - 1], items[|items| - 1];
      Culled(init, now, maxAge) + if Fresh(last, now, maxAge) then [last] else []
  }

  function Stored(items: seq<Item>): (r: seq<Item>)
    ensures |r| == |items|
    ensures forall i :: 0 <= i < |r| ==> r[i] == items[i].Stored()
  {
    seq(|items|, i requires 0 <= i < |items| => items[i].Stored())
  }

  function Printed(items: seq<Item>): (r: seq<string>)
    ensures |r| == |items|
    ensures forall i :: 0 <= i < |r| ==> r[i] == ToString(items[i])
  {
    seq(|items|, i requires 0 <= i < |items| => ToString(items[i]))
  }

  function Unlines(lines: seq<string>): string {
    if lines == [] then "" else Unlines(lines[..|lines| - 1]) + (lines[|lines| - 1] + "\n")
  }

  /** What a save of an array leaves in its file: a line for each item that is not culled. */
  function Saved(items: seq<Item>, now: int, maxAge: nat): string {
    Unlines(Printed(Culled(items, now, maxAge)))
  }

  lemma UnlinesSnoc(lines: seq<string>, line: string)
    ensures Unlines(lines + [line]) == Unlines(lines) + (line + "\n")
  {
    assert (lines + [line])[..|lines|] == lines;
  }

  /** The terminated lines of a text; what follows the last newline is not one. */
  function LinesOf(text: string): seq<string> {
    var parts := Split(text, '\n');
    if parts == [] then [] else parts[..|parts| - 1]
  }

  /** The item of a line, if it has one. */
  function LineItems(line: string): seq<Item> {
    var item := FromString(line);
    if item.Some? then [item.value] else []
  }

  /** What a load appends: one item for each terminated line that parses. */
  function Loaded(text: string): seq<Item> {
    FlatMap(LineItems, LinesOf(text))
  }

  method ArrayToFile(items: seq<Item>, now: int, maxAge: nat) returns (text: string)
    ensures text == Saved(items, now, maxAge)
  {
    text := "";
    for i := 0 to |items|
      invariant text == Unlines(Printed(Culled(items[..i], now, maxAge)))
    {
      ghost var kept := Culled(items[..i], now, maxAge);
      assert items[..i + 1][..i] == items[..i];
      if now - items[i].time > maxAge {
        assert Culled(items[..i + 1], now, maxAge) == kept;
        continue;
      }
      var part := ToString(items[i]);
      UnlinesSnoc(Printed(kept), part);
      assert Printed(kept + [items[i]]) == Printed(kept) + [part];
      text := text + (part + "\n");
    }
    assert items[..|items|] == items;
  }

  /** `file` is None when the file does not exist. The flag is the C return value, which reports on
      the last line only. */
  method ArrayFromFile(list: seq<Item>, file: Option<string>) returns (r: seq<Item>, ok: bool)
    ensures file.None? ==> r == list && !ok
    ensures file.Some? ==> r == list + Loaded(file.value)
    ensures file.Some? ==>
              (!ok <==> var lines := LinesOf(file.value);
                        lines != [] && LineItems(lines[|lines| - 1]) == [])
  {
    r, ok := list, file.Some?;
    if !ok {
      return;
    }
    var parts := Split(file.value, '\n');
    if parts == [] {
      return;
    }
    r, ok := LinesFromFile(list, parts[..|parts| - 1], LineItems);
  }

  /** The loop over the lines, whose flag reports on the last one. */
  method LinesFromFile(list: seq<Item>, lines: seq<string>, ghost itemsOf: string -> seq<Item>)
    returns (r: seq<Item>, ok: bool)
    requires itemsOf == LineItems
    ensures r == list + FlatMap(itemsOf, lines)
    ensures !ok <==> lines != [] && itemsOf(lines[|lines| - 1]) == []
  {
    r, ok := list, true;
    for i := 0 to |lines|
      invariant r == list + FlatMapTo(itemsOf, lines, i)
      invariant ok <==> i == 0 || itemsOf(lines[i - 1]) != []
    {
      var found := LineFromFile(lines[i], itemsOf);
      Regrouped(list, FlatMapTo(itemsOf, lines, i), found);
      r, ok := r + found, found != [];
    }
  }

  lemma Regrouped(a: seq<Item>, b: seq<Item>, c: seq<Item>)
    ensures a + b + c == a + (b + c)
  {
  }

  method LineFromFile(line: string, ghost itemsOf: string -> seq<Item>) returns (found: seq<Item>)
    requires itemsOf == LineItems
    ensures found == itemsOf(line)
  {
    var item := FromString(line);
    found := if item.Some? then [item.value] else [];
    assert found == LineItems(line);
  }

  // ----- Reading back what was written

  lemma {:induction false} FieldsConcat(a: string, sep: char, b: string)
    ensures Fields(a + [sep] + b, sep) == Fields(a, sep) + Fields(b, sep)
  {
    var s := a + [sep] + b;
    if a == "" {
      assert s[1..] == b;
    } else {
      assert s[1..] == a[1..] + [sep] + b;
      FieldsConcat(a[1..], sep, b);
    }
  }

  lemma LinesOfTerminated(a: string)
    ensures LinesOf(a + "\n") == Fields(a, '\n')
  {
    assert a + "\n" == a + ['\n'] + "";
    FieldsConcat(a, '\n', "");
  }

  /** A text reads as its whole lines do one by one. */
  lemma LinesOfConcat(a: string, b: string)
    ensures LinesOf(a + "\n" + b) == LinesOf(a + "\n") + LinesOf(b)
  {
    LinesOfTerminated(a);
    FieldsConcat(a, '\n', b);
  }

  lemma LinesOfSnoc(a: string, line: string)
    requires a == "" || a[|a| - 1] == '\n'
    requires '\n' !in line
    ensures LinesOf(a + (line + "\n")) == LinesOf(a) + [line]
  {
    LinesOfTerminated(line);
    FieldsOfOne(line, '\n');
    if a == "" {
      assert a + (line + "\n") == line + "\n";
    } else {
      var init := a[..|a| - 1];
      assert a == init + "\n" && a + (line + "\n") == init + "\n" + (line + "\n");
      LinesOfConcat(init, line + "\n");
    }
  }

  lemma {:induction false} LinesOfUnlines(lines: seq<string>)
    requires forall i :: 0 <= i < |lines| ==> '\n' !in lines[i]
    ensures Unlines(lines) == "" || Unlines(lines)[|Unlines(lines)| - 1] == '\n'
    ensures LinesOf(Unlines(lines)) == lines
  {
    if lines != [] {
      var n := |lines| - 1;
      LinesOfUnlines(lines[..n]);
      LinesOfSnoc(Unlines(lines[..n]), lines[n]);
    }
  }

  lemma LoadedOfPrinted(items: seq<Item>)
    ensures Loaded(Unlines(Printed(items))) == Stored(items)
  {
    var lines := Printed(items);
    forall i | 0 <= i < |items|
      ensures '\n' !in lines[i] && LineItems(lines[i]) == [Stored(items)[i]]
    {
      PrintedLineIsPlain(items[i]);
      ItemRoundTrip(items[i]);
    }
    LinesOfUnlines(lines);
    FlatMapSingles(LineItems, lines, Stored(items), |lines|);
  }

  /** A file has one line for each entry that was young enough, in order, and nothing else. */
  lemma SavedLineByLine(items: seq<Item>, now: int, maxAge: nat)
    ensures var text, kept := Saved(items, now, maxAge), Culled(items, now, maxAge);
            && |LinesOf(text)| == |kept| && (forall i :: 0 <= i < |kept| ==> LinesOf(text)[i] == ToString(kept[i]))
            && (text == "" || text[|text| - 1] == '\n')
  {
    var lines := Printed(Culled(items, now, maxAge));
    forall i | 0 <= i < |lines| ensures '\n' !in lines[i] {
      PrintedLineIsPlain(Culled(items, now, maxAge)[i]);
    }
    LinesOfUnlines(lines);
  }

  /** A restart gives back exactly the entries that were young enough, in order, each with its time
      and state intact and its value to three decimals. */
  lemma RestartRoundTrip(items: seq<Item>, now: int, maxAge: nat)
    ensures Loaded(Saved(items, now, maxAge)) == Stored(Culled(items, now, maxAge))
  {
    LoadedOfPrinted(Culled(items, now, maxAge));
  }

  lemma PrintedOfStored(items: seq<Item>)
    ensures Printed(Stored(items)) == Printed(items)
  {
    forall i | 0 <= i < |items| ensures Printed(Stored(items))[i] == Printed(items)[i] {
      StoredIsFixed(items[i]);
    }
  }

  lemma {:induction false} CulledMembers(items: seq<Item>, now: int, maxAge: nat, x: Item)
    ensures x in Culled(items, now, maxAge) <==> x in items && now <= x.time + maxAge
  {
    if items != [] {
      var n := |items| - 1;
      assert items == items[..n] + [items[n]];
      CulledMembers(items[..n], now, maxAge, x);
    }
  }

  /** Culling keeps the order: what is kept of two parts is what is kept of each. */
  lemma {:induction false} CulledOfConcat(a: seq<Item>, b: seq<Item>, now: int, maxAge: nat)
    ensures Culled(a + b, now, maxAge) == Culled(a, now, maxAge) + Culled(b, now, maxAge)
    ensures |a| == 1 ==> Culled(a, now, maxAge) == if now <= a[0].time + maxAge then a else []
  {
    if b == [] {
      assert a + b == a;
    } else {
      var n := |b| - 1;
      assert (a + b)[..|a| + n] == a + b[..n];
      CulledOfConcat(a, b[..n], now, maxAge);
    }
    if |a| == 1 {
      assert a[..0] == [] && a == [a[0]];
    }
  }

  lemma {:induction false} CulledKeepsFresh(items: seq<Item>, now: int, maxAge: nat)
    requires forall i :: 0 <= i < |items| ==> Fresh(items[i], now, maxAge)
    ensures Culled(items, now, maxAge) == items
  {
    if items != [] {
      CulledKeepsFresh(items[..|items| - 1], now, maxAge);
    }
  }

  /** Saving the reloaded array at the same instant reproduces the file character for character. */
  lemma SaveIsIdempotent(items: seq<Item>, now: int, maxAge: nat)
    ensures Saved(Loaded(Saved(items, now, maxAge)), now, maxAge) == Saved(items, now, maxAge)
  {
    var kept := Culled(items, now, maxAge);
    RestartRoundTrip(items, now, maxAge);
    CulledKeepsFresh(Stored(kept), now, maxAge);
    PrintedOfStored(kept);
  }

  lemma LinesWithLine(before: string, line: string, after: string)
    requires '\n' !in line
    ensures LinesOf(before + "\n" + (line + "\n" + after)) == LinesOf(before + "\n") + ([line] + LinesOf(after))
    ensures LinesOf(before + "\n" + after) == LinesOf(before + "\n") + LinesOf(after)
  {
    LinesOfConcat(before, line + "\n" + after);
    LinesOfConcat(before, after);
    LinesOfConcat(line, after);
    LinesOfTerminated(line);
    FieldsOfOne(line, '\n');
  }

  lemma FlatMapSkips<A, B>(f: A -> seq<B>, xs: seq<A>, x: A, ys: seq<A>)
    requires f(x) == []
    ensures FlatMap(f, xs + ([x] + ys)) == FlatMap(f, xs + ys)
  {
    FlatMapConcat(f, xs, [x] + ys);
    FlatMapConcat(f, xs, ys);
    FlatMapConcat(f, [x], ys);
    FlatMapOne(f, x);
  }

  /** A damaged line costs no other entry of its file, be it the first one or behind others. */
  lemma DamagedLineIsLocal(before: string, line: string, after: string)
    requires before == "" || before[|before| - 1] == '\n'
    requires '\n' !in line && LineItems(line) == []
    ensures Loaded(before + (line + "\n" + after)) == Loaded(before + after)
  {
    if before == "" {
      assert before + (line + "\n" + after) == line + "\n" + after && before + after == after;
      FirstLine(line, after);
      FlatMapSkips(LineItems, [], line, LinesOf(after));
    } else {
      var init := before[..|before| - 1];
      assert before == init + "\n";
      LinesWithLine(init, line, after);
      FlatMapSkips(LineItems, LinesOf(before), line, LinesOf(after));
    }
  }

  lemma FirstLine(line: string, after: string)
    requires '\n' !in line
    ensures LinesOf(line + "\n" + after) == [] + ([line] + LinesOf(after))
    ensures LinesOf(after) == [] + LinesOf(after)
  {
    LinesOfConcat(line, after);
    LinesOfTerminated(line);
    FieldsOfOne(line, '\n');
  }
}
