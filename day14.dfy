/** The nanofactory of src/bin/day14.rs: parsing reaction lines such as
    `7 A, 1 E => 1 FUEL` into reactions keyed by their output, and
    `build_product`, which works through a stack of outstanding requests,
    takes what it can from a table of spare chemicals, runs reactions for
    the rest and counts the ORE they consume. */
module Day14 {
  import opened Wrappers
  import opened RustInt
  import Text

  // ---------------------------------------------------------------- data

  /** `ReactionEntry`: an amount of one chemical. */
  datatype Entry = Entry(product: string, count: i32)

  /** `Reaction`: `count` units of `product` from the `inputs`. */
  datatype Reaction = Reaction(product: string, count: i32, inputs: seq<Entry>)

  type Reactions = map<string, Reaction>

  /** The ways the parser panics. */
  datatype ParseError =
    | MissingWord   // an entry with fewer than two words
    | BadCount      // an entry whose first word is not an i32
    | MissingArrow  // a line without `=>`

  // ---------------------------------------------------------------- parsing

  /** `parse_reaction_entry`: the first two words, a count and a name; any
      further words are ignored. */
  function ParseEntry(entry: string): (r: Result<Entry, ParseError>)
    ensures r.Ok? ==> |r.value.product| > 0
  {
    var words := Text.Words(entry);
    if |words| < 2 then Err(MissingWord)
    else match Text.ParseI32(words[0])
      case None => Err(BadCount)
      case Some(n) => Ok(Entry(words[1], n))
  }

  /** `.map(parse_reaction_entry).collect()`: every piece parsed, in order,
      stopping at the first that fails. */
  function ParseEntries(pieces: seq<string>): (r: Result<seq<Entry>, ParseError>)
    ensures r.Ok? ==> |r.value| == |pieces|
  {
    if |pieces| == 0 then Ok([])
    else
      var first :- ParseEntry(pieces[0]);
      var rest :- ParseEntries(pieces[1..]);
      Ok([first] + rest)
  }

  /** `parse_reaction`: the output after the first `=>`, the comma-separated
      inputs before it. The output is parsed first. */
  function ParseReaction(line: string): (r: Result<Reaction, ParseError>)
    ensures r.Ok? ==> |r.value.inputs| >= 1
  {
    var parts := Text.Split(line, "=>");
    if |parts| < 2 then Err(MissingArrow)
    else
      var output :- ParseEntry(parts[1]);
      var inputs :- ParseEntries(Text.Split(parts[0], ","));
      Ok(Reaction(output.product, output.count, inputs))
  }

  /** Every line parsed, in order, stopping at the first that fails. */
  function ParseLines(lines: seq<string>): (r: Result<seq<Reaction>, ParseError>)
    ensures r.Ok? ==> |r.value| == |lines|
  {
    if |lines| == 0 then Ok([])
    else
      var first :- ParseReaction(lines[0]);
      var rest :- ParseLines(lines[1..]);
      Ok([first] + rest)
  }

  /** Collecting `(product, reaction)` pairs into a `HashMap`: a later
      reaction for the same product replaces an earlier one. */
  function KeyByProduct(rs: seq<Reaction>): (m: Reactions)
    ensures forall p | p in m :: m[p].product == p
  {
    if |rs| == 0 then map[]
    else KeyByProduct(rs[..|rs| - 1])[rs[|rs| - 1].product := rs[|rs| - 1]]
  }

  /** `parse_reactions`: the trimmed text, line by line, keyed by output. */
  function ParseReactions(text: string): (r: Result<Reactions, ParseError>)
    ensures r.Ok? ==> forall p | p in r.value :: r.value[p].product == p
  {
    var rs :- ParseLines(Text.Lines(Text.Trim(text)));
    Ok(KeyByProduct(rs))
  }

  /** The products keyed are exactly the outputs of the reactions. */
  lemma {:induction false} KeyByProductKeys(rs: seq<Reaction>, p: string)
    ensures p in KeyByProduct(rs) <==> exists k | 0 <= k < |rs| :: rs[k].product == p
  {
    if |rs| > 0 {
      var init := rs[..|rs| - 1];
      KeyByProductKeys(init, p);
      if exists k | 0 <= k < |init| :: init[k].product == p {
        var k :| 0 <= k < |init| && init[k].product == p;
        assert rs[k].product == p;
      }
      if exists k | 0 <= k < |rs| :: rs[k].product == p {
        var k :| 0 <= k < |rs| && rs[k].product == p;
        if k < |init| {
          assert init[k].product == p;
        }
      }
    }
  }

  /** The reaction keyed under a product is the last one for it. */
  lemma {:induction false} KeyByProductLatest(rs: seq<Reaction>, k: nat)
    requires k < |rs|
    requires forall j | k < j < |rs| :: rs[j].product != rs[k].product
    ensures rs[k].product in KeyByProduct(rs) && KeyByProduct(rs)[rs[k].product] == rs[k]
  {
    if k < |rs| - 1 {
      var init := rs[..|rs| - 1];
      assert forall j | k < j < |init| :: init[j] == rs[j];
      KeyByProductLatest(init, k);
    }
  }

  // ---------------------------------------------------------------- printing

  /** A name the format can carry: no whitespace, `,` or `=`. */
  predicate ValidName(s: string) {
    && |s| > 0
    && (forall i | 0 <= i < |s| :: !Text.IsWhitespace(s[i]))
    && ',' !in s && '=' !in s
  }

  predicate ValidReaction(r: Reaction) {
    && ValidName(r.product)
    && |r.inputs| >= 1
    && forall k | 0 <= k < |r.inputs| :: ValidName(r.inputs[k].product)
  }

  /** `N NAME`. */
  function FormatEntry(e: Entry): string {
    Text.IntToString(e.count) + " " + e.product
  }

  /** The entries joined by `, `. */
  function FormatInputs(inputs: seq<Entry>): string {
    if |inputs| == 0 then ""
    else if |inputs| == 1 then FormatEntry(inputs[0])
    else FormatEntry(inputs[0]) + ", " + FormatInputs(inputs[1..])
  }

  /** `INPUTS => OUTPUT`, one line of the puzzle input. */
  function FormatReaction(r: Reaction): string {
    FormatInputs(r.inputs) + " => " + FormatEntry(Entry(r.product, r.count))
  }

  function FormattedLines(rs: seq<Reaction>): (ls: seq<string>)
    ensures |ls| == |rs|
  {
    seq(|rs|, k requires 0 <= k < |rs| => FormatReaction(rs[k]))
  }

  /** A puzzle input: the reactions, one per line. */
  function FormatReactions(rs: seq<Reaction>): string
    requires |rs| >= 1
  {
    Text.Join(FormattedLines(rs), "\n")
  }

  // ---------------------------------------------------------------- round trip

  /** The characters a decimal number can hold. */
  lemma IntToStringAvoids(n: int)
    ensures ',' !in Text.IntToString(n) && '=' !in Text.IntToString(n) && '\n' !in Text.IntToString(n)
    ensures forall i | 0 <= i < |Text.IntToString(n)| :: !Text.IsWhitespace(Text.IntToString(n)[i])
  {
    Text.IntToStringChars(n);
    Text.IntToStringHasNoWhitespace(n);
  }

  lemma EntryAvoids(e: Entry)
    requires ValidName(e.product)
    ensures ',' !in FormatEntry(e) && '=' !in FormatEntry(e) && '\n' !in FormatEntry(e)
  {
    IntToStringAvoids(e.count);
  }

  lemma {:induction false} InputsAvoid(inputs: seq<Entry>)
    requires |inputs| >= 1
    requires forall k | 0 <= k < |inputs| :: ValidName(inputs[k].product)
    ensures '=' !in FormatInputs(inputs) && '\n' !in FormatInputs(inputs)
  {
    EntryAvoids(inputs[0]);
    if |inputs| > 1 {
      InputsAvoid(inputs[1..]);
    }
  }

  /** The words of an entry are its count and its name. */
  lemma EntryWords(e: Entry)
    requires ValidName(e.product)
    ensures Text.Words(FormatEntry(e)) == [Text.IntToString(e.count), e.product]
  {
    var n := Text.IntToString(e.count);
    Text.WordsSpaceConcat(n, e.product);
    IntToStringAvoids(e.count);
    Text.WordsOfWord(n);
    Text.WordsOfWord(e.product);
  }

  /** An entry parses back, whatever whitespace comes before it and with or
      without one space after it. */
  lemma ParseEntryPadded(lead: string, e: Entry, trail: string)
    requires forall i | 0 <= i < |lead| :: Text.IsWhitespace(lead[i])
    requires trail == "" || trail == " "
    requires ValidName(e.product)
    ensures ParseEntry(lead + FormatEntry(e) + trail) == Ok(e)
  {
    var f := FormatEntry(e);
    Text.WordsAfterWhitespace(lead, f + trail);
    assert lead + f + trail == lead + (f + trail);
    if trail == " " {
      Text.WordsBeforeSpace(f);
    } else {
      assert f + trail == f;
    }
    EntryWords(e);
    Text.ParseIntToString(e.count);
  }

  lemma ParseEntriesCons(p: string, t: seq<string>)
    requires ParseEntry(p).Ok? && ParseEntries(t).Ok?
    ensures ParseEntries([p] + t) == Ok([ParseEntry(p).value] + ParseEntries(t).value)
  {
    assert ([p] + t)[0] == p && ([p] + t)[1..] == t;
  }

  lemma InputsText(lead: string, inputs: seq<Entry>)
    requires |inputs| >= 2
    ensures lead + FormatInputs(inputs) + " "
      == (lead + FormatEntry(inputs[0])) + "," + (" " + FormatInputs(inputs[1..]) + " ")
  {
    Regroup(lead, FormatEntry(inputs[0]), FormatInputs(inputs[1..]));
  }

  lemma Regroup(lead: string, a: string, b: string)
    ensures lead + (a + ", " + b) + " " == (lead + a) + "," + (" " + b + " ")
  {
    assert ", " == "," + " ";
  }

  /** The inputs of a line, with the space before `=>`, parse back: the text
      splits at each `,` into one piece per entry. */
  lemma {:induction false} ParseInputsRoundTrip(lead: string, inputs: seq<Entry>)
    requires lead == "" || lead == " "
    requires |inputs| >= 1
    requires forall k | 0 <= k < |inputs| :: ValidName(inputs[k].product)
    ensures ParseEntries(Text.Split(lead + FormatInputs(inputs) + " ", ",")) == Ok(inputs)
    decreases |inputs|
  {
    if |inputs| == 1 {
      ParseLastInput(lead, inputs[0]);
      assert inputs == [inputs[0]];
    } else {
      var rest := inputs[1..];
      ParseInputsRoundTrip(" ", rest);
      ParseInputsStep(lead, inputs);
    }
  }

  lemma ParseLastInput(lead: string, e: Entry)
    requires lead == "" || lead == " "
    requires ValidName(e.product)
    ensures ParseEntries(Text.Split(lead + FormatEntry(e) + " ", ",")) == Ok([e])
  {
    var p := lead + FormatEntry(e) + " ";
    EntryAvoids(e);
    assert ',' !in p;
    ParseEntryPadded(lead, e, " ");
    Text.SplitWithoutSeparator(p, ",");
    assert ParseEntries([]) == Ok([]);
    ParseEntriesCons(p, []);
    assert [p] + [] == [p] && [e] + [] == [e];
  }

  lemma ParseInputsStep(lead: string, inputs: seq<Entry>)
    requires lead == "" || lead == " "
    requires |inputs| >= 2 && ValidName(inputs[0].product)
    requires ParseEntries(Text.Split(" " + FormatInputs(inputs[1..]) + " ", ",")) == Ok(inputs[1..])
    ensures ParseEntries(Text.Split(lead + FormatInputs(inputs) + " ", ",")) == Ok(inputs)
  {
    var e := inputs[0];
    var p := lead + FormatEntry(e);
    var x := " " + FormatInputs(inputs[1..]) + " ";
    EntryAvoids(e);
    assert ',' !in p;
    InputsText(lead, inputs);
    Text.SplitFirstAt(p, x, ",");
    ParseEntryPadded(lead, e, "");
    assert p + "" == p;
    ParseEntriesCons(p, Text.Split(x, ","));
    assert [e] + inputs[1..] == inputs;
  }

  lemma ReactionText(r: Reaction)
    requires ValidReaction(r)
    ensures FormatReaction(r)
      == (FormatInputs(r.inputs) + " ") + "=>" + (" " + FormatEntry(Entry(r.product, r.count)))
  {
  }

  /** Printing a reaction and parsing it gives it back. */
  lemma ParseReactionRoundTrip(r: Reaction)
    requires ValidReaction(r)
    ensures ParseReaction(FormatReaction(r)) == Ok(r)
  {
    var ins := FormatInputs(r.inputs) + " ";
    var out := Entry(r.product, r.count);
    var y := " " + FormatEntry(out);
    InputsAvoid(r.inputs);
    EntryAvoids(out);
    assert '=' !in ins && '=' !in y;
    ReactionText(r);
    Text.SplitFirstAt(ins, y, "=>");
    Text.SplitWithoutSeparator(y, "=>");
    var parts := Text.Split(FormatReaction(r), "=>");
    assert parts == [ins, y];
    ParseEntryPadded(" ", out, "");
    assert y + "" == y;
    ParseInputsRoundTrip("", r.inputs);
    assert "" + FormatInputs(r.inputs) + " " == ins;
  }

  /** Whitespace before a line, as in the indented test input, changes nothing. */
  lemma ParseReactionIndented(ws: string, line: string)
    requires forall i | 0 <= i < |ws| :: Text.IsWhitespace(ws[i])
    ensures ParseReaction(ws + line) == ParseReaction(line)
  {
    assert '=' !in ws && ',' !in ws;
    Text.SplitAfterPrefix(ws, line, "=>");
    var parts := Text.Split(line, "=>");
    var parts' := Text.Split(ws + line, "=>");
    assert parts' == [ws + parts[0]] + parts[1..];
    if |parts| >= 2 {
      assert parts'[1] == parts[1];
      Text.SplitAfterPrefix(ws, parts[0], ",");
      var pieces := Text.Split(parts[0], ",");
      var pieces' := Text.Split(ws + parts[0], ",");
      assert pieces' == [ws + pieces[0]] + pieces[1..];
      Text.WordsAfterWhitespace(ws, pieces[0]);
      assert ParseEntry(pieces'[0]) == ParseEntry(pieces[0]);
      assert pieces'[1..] == pieces[1..];
    }
  }

  lemma {:induction false} ParseLinesRoundTrip(rs: seq<Reaction>)
    requires forall k | 0 <= k < |rs| :: ValidReaction(rs[k])
    ensures ParseLines(FormattedLines(rs)) == Ok(rs)
  {
    var ls := FormattedLines(rs);
    forall k | 0 <= k < |rs|
      ensures ParseReaction(ls[k]) == Ok(rs[k])
    {
      ParseReactionRoundTrip(rs[k]);
    }
    ParseLinesEach(ls, rs);
  }

  /** Lines that each parse give their reactions, in order. */
  lemma {:induction false} ParseLinesEach(lines: seq<string>, rs: seq<Reaction>)
    requires |lines| == |rs|
    requires forall k | 0 <= k < |lines| :: ParseReaction(lines[k]) == Ok(rs[k])
    ensures ParseLines(lines) == Ok(rs)
  {
    if |lines| > 0 {
      ParseLinesEach(lines[1..], rs[1..]);
      assert [rs[0]] + rs[1..] == rs;
    }
  }

  /** The first and last characters of a line are not whitespace, and a line
      holds no newline. */
  lemma FormatReactionShape(r: Reaction)
    requires ValidReaction(r)
    ensures var s := FormatReaction(r);
      && |s| > 0 && !Text.IsWhitespace(s[0]) && !Text.IsWhitespace(s[|s| - 1])
      && '\n' !in s
  {
    var out := Entry(r.product, r.count);
    InputsAvoid(r.inputs);
    EntryAvoids(out);
    InputsStart(r.inputs);
    var head := FormatInputs(r.inputs) + " => " + Text.IntToString(r.count) + " ";
    assert FormatReaction(r) == FormatInputs(r.inputs) + (" => " + FormatEntry(out));
    assert FormatReaction(r) == head + r.product;
  }

  /** A list of inputs starts with the first count's first character. */
  lemma InputsStart(inputs: seq<Entry>)
    requires |inputs| >= 1
    ensures |FormatInputs(inputs)| > 0 && !Text.IsWhitespace(FormatInputs(inputs)[0])
  {
    var n := Text.IntToString(inputs[0].count);
    IntToStringAvoids(inputs[0].count);
    var e := FormatEntry(inputs[0]);
    assert e == n + (" " + inputs[0].product);
    StartsWith(n, " " + inputs[0].product, e);
    var tail := if |inputs| == 1 then "" else ", " + FormatInputs(inputs[1..]);
    assert FormatInputs(inputs) == e + tail;
    StartsWith(e, tail, FormatInputs(inputs));
  }

  lemma StartsWith(a: string, b: string, s: string)
    requires s == a + b && |a| > 0
    ensures |s| > 0 && s[0] == a[0]
  {
  }

  /** Printing reactions one per line and parsing the text gives every
      reaction keyed by its product. */
  lemma ParseReactionsRoundTrip(rs: seq<Reaction>)
    requires |rs| >= 1
    requires forall k | 0 <= k < |rs| :: ValidReaction(rs[k])
    ensures ParseReactions(FormatReactions(rs)) == Ok(KeyByProduct(rs))
  {
    var ls := FormattedLines(rs);
    LinesShape(rs);
    TextUntrimmed(ls);
    Text.LinesOfJoin(ls);
    ParseLinesRoundTrip(rs);
  }

  lemma LinesShape(rs: seq<Reaction>)
    requires forall k | 0 <= k < |rs| :: ValidReaction(rs[k])
    ensures forall k | 0 <= k < |rs| :: var line := FormattedLines(rs)[k];
      && |line| > 0 && !Text.IsWhitespace(line[0]) && !Text.IsWhitespace(line[|line| - 1])
      && '\n' !in line
  {
    forall k | 0 <= k < |rs|
      ensures var line := FormattedLines(rs)[k];
        && |line| > 0 && !Text.IsWhitespace(line[0]) && !Text.IsWhitespace(line[|line| - 1])
        && '\n' !in line
    {
      FormatReactionShape(rs[k]);
    }
  }

  lemma TextUntrimmed(ls: seq<string>)
    requires |ls| >= 1
    requires forall k | 0 <= k < |ls| :: |ls[k]| > 0 && !Text.IsWhitespace(ls[k][0]) && !Text.IsWhitespace(ls[k][|ls[k]| - 1])
    ensures Text.Trim(Text.Join(ls, "\n")) == Text.Join(ls, "\n")
  {
    Text.JoinFirst(ls, "\n");
    Text.JoinLast(ls, "\n");
    Text.TrimUntrimmed(Text.Join(ls, "\n"));
  }

  // ---------------------------------------------------------------- build_product

  /** One entry of the `todo` stack: an amount of a product still to supply. */
  datatype Request = Request(product: string, count: int)

  /** The state of `build_product` between iterations: the `todo` stack (its
      top is the last element), the spare table, the ORE counted so far,
      and the products whose reaction has run, in order (a record the source
      does not keep, used to state what the ORE count means). */
  datatype Work = Work(todo: seq<Request>, spare: map<string, int>, ore: int, ran: seq<string>)

  /** Why `build_product` stops without a result. */
  datatype Fault =
    | NoReaction(product: string)  // `reactions.get(product).unwrap()` on a missing product
    | OutOfFuel                    // the step bound of the model ran out

  /** The spare amount of a product, 0 for one not in the table. */
  function SpareOf(spare: map<string, int>, p: string): int {
    if p in spare then spare[p] else 0
  }

  /** `spare_resources.entry(p).or_insert(0)`. */
  function Reserve(spare: map<string, int>, p: string): (m: map<string, int>)
    ensures p in m && m.Keys == spare.Keys + {p}
    ensures forall q :: SpareOf(m, q) == SpareOf(spare, q)
  {
    spare[p := SpareOf(spare, p)]
  }

  /** One pass of the `for input in reaction.inputs` loop: ORE is counted;
      another input is taken from spare when spare covers it, and pushed
      onto `todo` otherwise. */
  function UseInput(w: Work, e: Entry): Work {
    if e.product == "ORE" then w.(ore := w.ore + e.count)
    else
      var spare := Reserve(w.spare, e.product);
      if spare[e.product] >= e.count then
        w.(spare := spare[e.product := spare[e.product] - e.count])
      else w.(spare := spare, todo := w.todo + [Request(e.product, e.count)])
  }

  /** The whole `for` loop over `inputs`, in order. */
  function UseInputs(w: Work, inputs: seq<Entry>): Work
    decreases |inputs|
  {
    if |inputs| == 0 then w
    else UseInput(UseInputs(w, inputs[..|inputs| - 1]), inputs[|inputs| - 1])
  }

  /** One iteration of the `while` loop: pop a request; serve it from spare
      if spare covers it; otherwise run the product's reaction once, keep
      its surplus as spare and push back the shortfall. */
  function Step(reactions: Reactions, w: Work): (r: Result<Work, Fault>)
    requires |w.todo| > 0
    ensures var req := w.todo[|w.todo| - 1];
      r.Err? <==> SpareOf(w.spare, req.product) < req.count && req.product !in reactions
    ensures r.Err? ==> r.error == NoReaction(w.todo[|w.todo| - 1].product)
  {
    var req := w.todo[|w.todo| - 1];
    var todo := w.todo[..|w.todo| - 1];
    var spare := Reserve(w.spare, req.product);
    if spare[req.product] >= req.count then
      Ok(w.(todo := todo, spare := spare[req.product := spare[req.product] - req.count]))
    else if req.product !in reactions then Err(NoReaction(req.product))
    else
      var reaction := reactions[req.product];
      var after := UseInputs(w.(todo := todo, spare := spare, ran := w.ran + [req.product]), reaction.inputs);
      var kept :=
        if reaction.count > req.count then
          after.(spare := after.spare[req.product := SpareOf(after.spare, req.product) + reaction.count - req.count])
        else after;
      if reaction.count < req.count then
        Ok(kept.(todo := kept.todo + [Request(req.product, req.count - reaction.count)]))
      else Ok(kept)
  }

  /** The `while !todo.is_empty()` loop, for at most `fuel` iterations. */
  function Run(reactions: Reactions, w: Work, fuel: nat): (r: Result<Work, Fault>)
    ensures r.Ok? ==> r.value.todo == []
    decreases fuel
  {
    if |w.todo| == 0 then Ok(w)
    else if fuel == 0 then Err(OutOfFuel)
    else
      var next :- Step(reactions, w);
      Run(reactions, next, fuel - 1)
  }

  /** `build_product(product, count, reactions, spare)` as a function: the
      final state, whose `ore` is the returned value and whose `spare` is the
      table left behind. */
  function BuildProductSpec(product: string, count: int, reactions: Reactions,
                            spare: map<string, int>, fuel: nat): (r: Result<Work, Fault>)
    ensures r.Ok? ==> r.value.todo == []
    ensures fuel > 0 && count <= SpareOf(spare, product) ==>
      r == Ok(Work([], spare[product := SpareOf(spare, product) - count], 0, []))
  {
    var w := Work([Request(product, count)], spare, 0, []);
    if fuel > 0 && count <= SpareOf(spare, product) then
      var left := SpareOf(spare, product) - count;
      assert w.todo[..0] == [];
      assert Reserve(spare, product)[product := left] == spare[product := left];
      assert Step(reactions, w) == Ok(Work([], spare[product := left], 0, []));
      assert Run(reactions, Work([], spare[product := left], 0, []), fuel - 1) == Ok(Work([], spare[product := left], 0, []));
      Run(reactions, w, fuel)
    else Run(reactions, w, fuel)
  }

  // ---------------------------------------------------------------- properties

  /** Every spare amount in the table is at least 0. */
  predicate NonNegative(spare: map<string, int>) {
    forall p | p in spare :: spare[p] >= 0
  }

  lemma UseInputKeepsNonNegative(w: Work, e: Entry)
    requires NonNegative(w.spare)
    ensures NonNegative(UseInput(w, e).spare)
  {
  }

  lemma {:induction false} UseInputsKeepsNonNegative(w: Work, inputs: seq<Entry>)
    requires NonNegative(w.spare)
    ensures NonNegative(UseInputs(w, inputs).spare)
    decreases |inputs|
  {
    if |inputs| > 0 {
      UseInputsKeepsNonNegative(w, inputs[..|inputs| - 1]);
      UseInputKeepsNonNegative(UseInputs(w, inputs[..|inputs| - 1]), inputs[|inputs| - 1]);
    }
  }

  /** A step never drives a spare amount below 0: amounts are only taken when
      they cover the request, and a surplus is positive. */
  lemma StepKeepsNonNegative(reactions: Reactions, w: Work)
    requires |w.todo| > 0 && NonNegative(w.spare)
    ensures Step(reactions, w).Ok? ==> NonNegative(Step(reactions, w).value.spare)
  {
    var req := w.todo[|w.todo| - 1];
    var spare := Reserve(w.spare, req.product);
    if spare[req.product] < req.count && req.product in reactions {
      var reaction := reactions[req.product];
      var start := w.(todo := w.todo[..|w.todo| - 1], spare := spare, ran := w.ran + [req.product]);
      UseInputsKeepsNonNegative(start, reaction.inputs);
    }
  }

  lemma {:induction false} RunKeepsNonNegative(reactions: Reactions, w: Work, fuel: nat)
    requires NonNegative(w.spare)
    ensures Run(reactions, w, fuel).Ok? ==> NonNegative(Run(reactions, w, fuel).value.spare)
    decreases fuel
  {
    if |w.todo| > 0 && fuel > 0 {
      StepKeepsNonNegative(reactions, w);
      if Step(reactions, w).Ok? {
        RunKeepsNonNegative(reactions, Step(reactions, w).value, fuel - 1);
      }
    }
  }

  /** `build_product` leaves no spare amount negative when it finds none. */
  lemma BuildProductKeepsNonNegative(product: string, count: int, reactions: Reactions,
                                     spare: map<string, int>, fuel: nat)
    requires NonNegative(spare)
    ensures BuildProductSpec(product, count, reactions, spare, fuel).Ok? ==>
      NonNegative(BuildProductSpec(product, count, reactions, spare, fuel).value.spare)
  {
    RunKeepsNonNegative(reactions, Work([Request(product, count)], spare, 0, []), fuel);
  }

  /** A request the spare table covers is served from it alone: only that
      product's spare amount changes, by the amount requested, no reaction
      runs and no ORE is spent. */
  lemma StepCovered(reactions: Reactions, w: Work)
    requires |w.todo| > 0
    requires SpareOf(w.spare, w.todo[|w.todo| - 1].product) >= w.todo[|w.todo| - 1].count
    ensures var req := w.todo[|w.todo| - 1];
      && Step(reactions, w).Ok?
      && Step(reactions, w).value.todo == w.todo[..|w.todo| - 1]
      && Step(reactions, w).value.ore == w.ore
      && Step(reactions, w).value.ran == w.ran
      && SpareOf(Step(reactions, w).value.spare, req.product) == SpareOf(w.spare, req.product) - req.count
      && forall q | q != req.product :: SpareOf(Step(reactions, w).value.spare, q) == SpareOf(w.spare, q)
  {
  }

  /** An input the spare table covers is taken from it alone. */
  lemma UseInputCovered(w: Work, e: Entry)
    requires e.product != "ORE" && SpareOf(w.spare, e.product) >= e.count
    ensures UseInput(w, e).todo == w.todo && UseInput(w, e).ore == w.ore
    ensures SpareOf(UseInput(w, e).spare, e.product) == SpareOf(w.spare, e.product) - e.count
    ensures forall q | q != e.product :: SpareOf(UseInput(w, e).spare, q) == SpareOf(w.spare, q)
  {
  }

  /** An input the spare table does not cover is requested on the stack. */
  lemma UseInputShort(w: Work, e: Entry)
    requires e.product != "ORE" && SpareOf(w.spare, e.product) < e.count
    ensures UseInput(w, e).todo == w.todo + [Request(e.product, e.count)]
    ensures UseInput(w, e).ore == w.ore
    ensures forall q :: SpareOf(UseInput(w, e).spare, q) == SpareOf(w.spare, q)
  {
  }

  lemma {:induction false} UseInputsKeepsRan(w: Work, inputs: seq<Entry>)
    ensures UseInputs(w, inputs).ran == w.ran
    decreases |inputs|
  {
    if |inputs| > 0 {
      UseInputsKeepsRan(w, inputs[..|inputs| - 1]);
    }
  }

  /** Running a reaction for a request it does not cover exactly: the
      surplus `reaction.count - count` goes to spare, the shortfall
      `count - reaction.count` goes back on the stack, on top. */
  lemma StepRunsReaction(reactions: Reactions, w: Work)
    requires |w.todo| > 0
    requires var req := w.todo[|w.todo| - 1];
      SpareOf(w.spare, req.product) < req.count && req.product in reactions
    ensures var req := w.todo[|w.todo| - 1];
      var reaction := reactions[req.product];
      var after := UseInputs(w.(todo := w.todo[..|w.todo| - 1], spare := Reserve(w.spare, req.product),
                                ran := w.ran + [req.product]), reaction.inputs);
      && Step(reactions, w).Ok?
      && Step(reactions, w).value.ore == after.ore
      && Step(reactions, w).value.ran == w.ran + [req.product]
      && SpareOf(Step(reactions, w).value.spare, req.product)
         == SpareOf(after.spare, req.product) + (if reaction.count > req.count then reaction.count - req.count else 0)
      && (forall q | q != req.product :: SpareOf(Step(reactions, w).value.spare, q) == SpareOf(after.spare, q))
      && Step(reactions, w).value.todo
         == after.todo + (if reaction.count < req.count then [Request(req.product, req.count - reaction.count)] else [])
  {
    var req := w.todo[|w.todo| - 1];
    var start := w.(todo := w.todo[..|w.todo| - 1], spare := Reserve(w.spare, req.product),
                    ran := w.ran + [req.product]);
    UseInputsKeepsRan(start, reactions[req.product].inputs);
    var after := UseInputs(start, reactions[req.product].inputs);
    assert after.todo + [] == after.todo;
  }

  /** The total still requested of `q` on the stack. */
  function Pending(todo: seq<Request>, q: string): int
    decreases |todo|
  {
    if |todo| == 0 then 0
    else Pending(todo[..|todo| - 1], q) + (if todo[|todo| - 1].product == q then todo[|todo| - 1].count else 0)
  }

  /** The total of `q` a list of inputs asks for. */
  function Consumed(inputs: seq<Entry>, q: string): int
    decreases |inputs|
  {
    if |inputs| == 0 then 0
    else Consumed(inputs[..|inputs| - 1], q) + (if inputs[|inputs| - 1].product == q then inputs[|inputs| - 1].count else 0)
  }

  /** The total of `q` the reactions run (named by product, in order) consume. */
  function Demanded(reactions: Reactions, ran: seq<string>, q: string): int
    decreases |ran|
  {
    if |ran| == 0 then 0
    else
      var p := ran[|ran| - 1];
      Demanded(reactions, ran[..|ran| - 1], q) + (if p in reactions then Consumed(reactions[p].inputs, q) else 0)
  }

  /** The total of `q` the reactions run produce. */
  function Produced(reactions: Reactions, ran: seq<string>, q: string): int
    decreases |ran|
  {
    if |ran| == 0 then 0
    else
      var p := ran[|ran| - 1];
      Produced(reactions, ran[..|ran| - 1], q) + (if p == q && p in reactions then reactions[p].count else 0)
  }

  /** What is in stock of `q` net of what is still requested, plus what the
      reactions run have consumed, minus what they have produced. */
  function Balance(reactions: Reactions, w: Work, q: string): int {
    SpareOf(w.spare, q) - Pending(w.todo, q) + Demanded(reactions, w.ran, q) - Produced(reactions, w.ran, q)
  }

  lemma PendingPush(todo: seq<Request>, r: Request, q: string)
    ensures Pending(todo + [r], q) == Pending(todo, q) + (if r.product == q then r.count else 0)
  {
    assert (todo + [r])[..|todo|] == todo;
  }

  lemma RanPush(reactions: Reactions, ran: seq<string>, p: string, q: string)
    ensures Demanded(reactions, ran + [p], q)
      == Demanded(reactions, ran, q) + (if p in reactions then Consumed(reactions[p].inputs, q) else 0)
    ensures Produced(reactions, ran + [p], q)
      == Produced(reactions, ran, q) + (if p == q && p in reactions then reactions[p].count else 0)
  {
    assert (ran + [p])[..|ran|] == ran;
  }

  /** Taking an input from spare and requesting it on the stack both lower
      the net stock by its count; ORE is counted instead. */
  lemma {:induction false} UseInputsNet(w: Work, inputs: seq<Entry>, q: string)
    requires q != "ORE"
    ensures var after := UseInputs(w, inputs);
      && SpareOf(after.spare, q) - Pending(after.todo, q)
         == SpareOf(w.spare, q) - Pending(w.todo, q) - Consumed(inputs, q)
      && after.ore == w.ore + Consumed(inputs, "ORE")
      && after.ran == w.ran
    decreases |inputs|
  {
    if |inputs| > 0 {
      var init := inputs[..|inputs| - 1];
      var e := inputs[|inputs| - 1];
      UseInputsNet(w, init, q);
      var mid := UseInputs(w, init);
      if e.product != "ORE" && SpareOf(mid.spare, e.product) < e.count {
        PendingPush(mid.todo, Request(e.product, e.count), q);
      }
    }
  }

  /** A step keeps the balance of every product but ORE, and the ORE spent
      grows by exactly the ORE the reaction run consumes. */
  lemma StepKeepsBalance(reactions: Reactions, w: Work, q: string)
    requires |w.todo| > 0 && Step(reactions, w).Ok? && q != "ORE"
    ensures Balance(reactions, Step(reactions, w).value, q) == Balance(reactions, w, q)
    ensures Step(reactions, w).value.ore - Demanded(reactions, Step(reactions, w).value.ran, "ORE")
      == w.ore - Demanded(reactions, w.ran, "ORE")
  {
    var req := w.todo[|w.todo| - 1];
    if SpareOf(w.spare, req.product) >= req.count {
      CoveredKeepsBalance(reactions, w, q);
    } else {
      RunKeepsBalanceStep(reactions, w, q);
    }
  }

  lemma CoveredKeepsBalance(reactions: Reactions, w: Work, q: string)
    requires |w.todo| > 0
    requires SpareOf(w.spare, w.todo[|w.todo| - 1].product) >= w.todo[|w.todo| - 1].count
    ensures Step(reactions, w).Ok?
    ensures Balance(reactions, Step(reactions, w).value, q) == Balance(reactions, w, q)
    ensures Step(reactions, w).value.ore == w.ore && Step(reactions, w).value.ran == w.ran
  {
    var req := w.todo[|w.todo| - 1];
    var todo := w.todo[..|w.todo| - 1];
    assert w.todo == todo + [req];
    PendingPush(todo, req, q);
    StepCovered(reactions, w);
  }

  lemma RunKeepsBalanceStep(reactions: Reactions, w: Work, q: string)
    requires |w.todo| > 0 && q != "ORE"
    requires var req := w.todo[|w.todo| - 1];
      SpareOf(w.spare, req.product) < req.count && req.product in reactions
    ensures Step(reactions, w).Ok?
    ensures Balance(reactions, Step(reactions, w).value, q) == Balance(reactions, w, q)
    ensures Step(reactions, w).value.ore - Demanded(reactions, Step(reactions, w).value.ran, "ORE")
      == w.ore - Demanded(reactions, w.ran, "ORE")
  {
    var req := w.todo[|w.todo| - 1];
    var todo := w.todo[..|w.todo| - 1];
    assert w.todo == todo + [req];
    PendingPush(todo, req, q);
    RunBalance(reactions, w, q);
    RanPush(reactions, w.ran, req.product, q);
    RanPush(reactions, w.ran, req.product, "ORE");
  }

  lemma RunBalance(reactions: Reactions, w: Work, q: string)
    requires |w.todo| > 0 && q != "ORE"
    requires var req := w.todo[|w.todo| - 1];
      SpareOf(w.spare, req.product) < req.count && req.product in reactions
    ensures var req := w.todo[|w.todo| - 1];
      && SpareOf(Step(reactions, w).value.spare, q) - Pending(Step(reactions, w).value.todo, q)
         == SpareOf(w.spare, q) - Pending(w.todo[..|w.todo| - 1], q)
            - Consumed(reactions[req.product].inputs, q)
            + (if q == req.product then reactions[req.product].count - req.count else 0)
      && Step(reactions, w).value.ore == w.ore + Consumed(reactions[req.product].inputs, "ORE")
      && Step(reactions, w).value.ran == w.ran + [req.product]
  {
    var req := w.todo[|w.todo| - 1];
    var reaction := reactions[req.product];
    var start := w.(todo := w.todo[..|w.todo| - 1], spare := Reserve(w.spare, req.product),
                    ran := w.ran + [req.product]);
    StepRunsReaction(reactions, w);
    UseInputsNet(start, reaction.inputs, q);
    var after := UseInputs(start, reaction.inputs);
    if reaction.count < req.count {
      PendingPush(after.todo, Request(req.product, req.count - reaction.count), q);
    } else {
      assert after.todo + [] == after.todo;
    }
    RanPush(reactions, w.ran, req.product, q);
    RanPush(reactions, w.ran, req.product, "ORE");
  }

  lemma {:induction false} RunKeepsBalance(reactions: Reactions, w: Work, fuel: nat, q: string)
    requires Run(reactions, w, fuel).Ok? && q != "ORE"
    ensures Balance(reactions, Run(reactions, w, fuel).value, q) == Balance(reactions, w, q)
    ensures Run(reactions, w, fuel).value.ore - Demanded(reactions, Run(reactions, w, fuel).value.ran, "ORE")
      == w.ore - Demanded(reactions, w.ran, "ORE")
    decreases fuel
  {
    if |w.todo| > 0 {
      StepKeepsBalance(reactions, w, q);
      RunKeepsBalance(reactions, Step(reactions, w).value, fuel - 1, q);
    }
  }

  /** The mass balance of `build_product`: for every chemical but ORE, what
      is left in spare is what was there, plus what the reactions run
      produced, minus what they consumed and what was asked for; and the
      ORE returned is the ORE the reactions run consumed. */
  lemma BuildProductBalance(product: string, count: int, reactions: Reactions,
                            spare: map<string, int>, fuel: nat, q: string)
    requires BuildProductSpec(product, count, reactions, spare, fuel).Ok? && q != "ORE"
    ensures var w := BuildProductSpec(product, count, reactions, spare, fuel).value;
      SpareOf(w.spare, q) == SpareOf(spare, q) + Produced(reactions, w.ran, q)
        - Demanded(reactions, w.ran, q) - (if q == product then count else 0)
    ensures var w := BuildProductSpec(product, count, reactions, spare, fuel).value;
      w.ore == Demanded(reactions, w.ran, "ORE")
  {
    var w0 := Work([Request(product, count)], spare, 0, []);
    RunKeepsBalance(reactions, w0, fuel, q);
    PendingPush([], Request(product, count), q);
    assert [] + [Request(product, count)] == [Request(product, count)];
  }

  /** The `spare_resources` table `build_product` updates in place, shared by
      successive calls. */
  class SpareResources {
    var spare: map<string, int>

    constructor ()
      ensures spare == map[]
    {
      spare := map[];
    }

    /** `build_product`: the ORE needed for `count` units of `product`; the
        table is left as the specification's final state says. */
    method BuildProduct(product: string, count: i32, reactions: Reactions, fuel: nat)
      returns (r: Result<int, Fault>)
      modifies this
      ensures BuildProductSpec(product, count, reactions, old(spare), fuel).Ok? <==> r.Ok?
      ensures r.Ok? ==> r.value == BuildProductSpec(product, count, reactions, old(spare), fuel).value.ore
      ensures r.Ok? ==> spare == BuildProductSpec(product, count, reactions, old(spare), fuel).value.spare
      ensures r.Err? ==> r.error == BuildProductSpec(product, count, reactions, old(spare), fuel).error
    {
      var ore: int := 0;
      var todo := [Request(product, count)];
      ghost var ran: seq<string> := [];
      var left := fuel;
      while |todo| > 0
        invariant Run(reactions, Work(todo, spare, ore, ran), left)
          == BuildProductSpec(product, count, reactions, old(spare), fuel)
        decreases left
      {
        if left == 0 {
          return Err(OutOfFuel);
        }
        var served;
        served, ran := Serve(reactions, todo, ore, ran);
        if served.Err? {
          return Err(served.error);
        }
        todo, ore := served.value.0, served.value.1;
        left := left - 1;
      }
      return Ok(ore);
    }

    /** One iteration of the `while` loop. */
    method Serve(reactions: Reactions, todo: seq<Request>, ore: int, ghost ran: seq<string>)
      returns (r: Result<(seq<Request>, int), Fault>, ghost ran': seq<string>)
      requires |todo| > 0
      modifies this
      ensures Step(reactions, Work(todo, old(spare), ore, ran)).Ok? <==> r.Ok?
      ensures r.Ok? ==> Step(reactions, Work(todo, old(spare), ore, ran)).value == Work(r.value.0, spare, r.value.1, ran')
      ensures r.Err? ==> Step(reactions, Work(todo, old(spare), ore, ran)).error == r.error
    {
      ghost var before := Work(todo, spare, ore, ran);
      var req := todo[|todo| - 1];
      var rest := todo[..|todo| - 1];
      if req.product !in spare {
        spare := spare[req.product := 0];
      }
      assert spare == Reserve(before.spare, req.product);
      if spare[req.product] >= req.count {
        spare := spare[req.product := spare[req.product] - req.count];
        return Ok((rest, ore)), ran;
      }
      if req.product !in reactions {
        return Err(NoReaction(req.product)), ran;
      }
      var reaction := reactions[req.product];
      ran' := ran + [req.product];
      var todo', ore' := UseReactionInputs(reaction.inputs, rest, ore, ran');
      if reaction.count > req.count {
        spare := spare[req.product := SpareOf(spare, req.product) + reaction.count - req.count];
      }
      if reaction.count < req.count {
        todo' := todo' + [Request(req.product, req.count - reaction.count)];
      }
      r := Ok((todo', ore'));
    }

    /** The `for input in reaction.inputs` loop. */
    method UseReactionInputs(inputs: seq<Entry>, todo: seq<Request>, ore: int, ghost ran: seq<string>)
      returns (todo': seq<Request>, ore': int)
      modifies this
      ensures Work(todo', spare, ore', ran) == UseInputs(Work(todo, old(spare), ore, ran), inputs)
    {
      ghost var start := Work(todo, spare, ore, ran);
      todo', ore' := todo, ore;
      for i := 0 to |inputs|
        invariant Work(todo', spare, ore', ran) == UseInputs(start, inputs[..i])
      {
        var input := inputs[i];
        assert inputs[..i + 1][..i] == inputs[..i];
        if input.product == "ORE" {
          ore' := ore' + input.count;
        } else {
          if input.product !in spare {
            spare := spare[input.product := 0];
          }
          if spare[input.product] >= input.count {
            spare := spare[input.product := spare[input.product] - input.count];
          } else {
            todo' := todo' + [Request(input.product, input.count)];
          }
        }
      }
      assert inputs[..|inputs|] == inputs;
    }
  }

  // ---------------------------------------------------------------- examples

  /** The first example of the tests, in its order. */
  function Example(): seq<Reaction> {
    [ Reaction("A", 10, [Entry("ORE", 10)]),
      Reaction("B", 1, [Entry("ORE", 1)]),
      Reaction("C", 1, [Entry("A", 7), Entry("B", 1)]),
      Reaction("D", 1, [Entry("A", 7), Entry("C", 1)]),
      Reaction("E", 1, [Entry("A", 7), Entry("D", 1)]),
      Reaction("FUEL", 1, [Entry("A", 7), Entry("E", 1)]) ]
  }

  /** The first example's text, without the test's indentation. */
  function ExampleText(): string {
    "10 ORE => 10 A" + "\n" + "1 ORE => 1 B" + "\n" + "7 A, 1 B => 1 C" + "\n"
    + "7 A, 1 C => 1 D" + "\n" + "7 A, 1 D => 1 E" + "\n" + "7 A, 1 E => 1 FUEL"
  }

  /** `test_example1`'s text parses to its six reactions, keyed by output. */
  lemma ExampleParses()
    ensures ParseReactions(ExampleText()) == Ok(KeyByProduct(Example()))
  {
    var rs := Example();
    ExampleValid();
    ExampleFormatted();
    ParseReactionsRoundTrip(rs);
  }

  lemma ExampleValid()
    ensures forall k | 0 <= k < |Example()| :: ValidReaction(Example()[k])
  {
    assert ValidName("ORE") && ValidName("A") && ValidName("B") && ValidName("C");
    assert ValidName("D") && ValidName("E") && ValidName("FUEL");
  }

  lemma ExampleFormatted()
    ensures FormatReactions(Example()) == ExampleText()
  {
    var ls := FormattedLines(Example());
    ExampleLinesOre();
    ExampleLinesPair();
    ExampleLinesPairFurther();
    JoinSix(ls, "\n");
  }

  lemma SmallNumbers()
    ensures Text.IntToString(1) == "1" && Text.IntToString(7) == "7" && Text.IntToString(10) == "10"
  {
    assert Text.NatToString(1) == "1";
    assert Text.NatToString(0) == "0";
    assert Text.NatToString(10) == Text.NatToString(1) + "0";
  }

  lemma SmallEntries()
    ensures FormatEntry(Entry("ORE", 10)) == "10 ORE" && FormatEntry(Entry("A", 10)) == "10 A"
    ensures FormatEntry(Entry("ORE", 1)) == "1 ORE" && FormatEntry(Entry("B", 1)) == "1 B"
    ensures FormatEntry(Entry("A", 7)) == "7 A" && FormatEntry(Entry("C", 1)) == "1 C"
    ensures FormatEntry(Entry("D", 1)) == "1 D" && FormatEntry(Entry("E", 1)) == "1 E"
    ensures FormatEntry(Entry("FUEL", 1)) == "1 FUEL"
  {
    SmallNumbers();
  }

  lemma OneInput(a: string, out: string, r: Reaction)
    requires |r.inputs| == 1
    requires FormatEntry(r.inputs[0]) == a && FormatEntry(Entry(r.product, r.count)) == out
    ensures FormatReaction(r) == a + " => " + out
  {
  }

  lemma TwoInputs(a: string, b: string, out: string, r: Reaction)
    requires |r.inputs| == 2
    requires FormatEntry(r.inputs[0]) == a && FormatEntry(r.inputs[1]) == b
    requires FormatEntry(Entry(r.product, r.count)) == out
    ensures FormatReaction(r) == a + ", " + b + " => " + out
  {
    assert FormatInputs(r.inputs[1..]) == b;
  }

  lemma ExampleLinesOre()
    ensures FormattedLines(Example())[0] == "10 ORE => 10 A"
    ensures FormattedLines(Example())[1] == "1 ORE => 1 B"
  {
    var rs := Example();
    SmallEntries();
    OneInput("10 ORE", "10 A", rs[0]);
    OneInput("1 ORE", "1 B", rs[1]);
  }

  lemma ExampleLinesPair()
    ensures FormattedLines(Example())[2] == "7 A, 1 B => 1 C"
    ensures FormattedLines(Example())[3] == "7 A, 1 C => 1 D"
  {
    var rs := Example();
    SmallEntries();
    TwoInputs("7 A", "1 B", "1 C", rs[2]);
    TwoInputs("7 A", "1 C", "1 D", rs[3]);
  }

  lemma ExampleLinesPairFurther()
    ensures FormattedLines(Example())[4] == "7 A, 1 D => 1 E"
    ensures FormattedLines(Example())[5] == "7 A, 1 E => 1 FUEL"
  {
    var rs := Example();
    SmallEntries();
    TwoInputs("7 A", "1 D", "1 E", rs[4]);
    TwoInputs("7 A", "1 E", "1 FUEL", rs[5]);
  }

  lemma JoinSix(ls: seq<string>, sep: string)
    requires |ls| == 6
    ensures Text.Join(ls, sep) == ls[0] + sep + ls[1] + sep + ls[2] + sep + ls[3] + sep + ls[4] + sep + ls[5]
  {
    assert ls[4..][1..] == ls[5..] && ls[3..][1..] == ls[4..] && ls[2..][1..] == ls[3..];
    assert ls[1..][1..] == ls[2..];
    assert Text.Join(ls[5..], sep) == ls[5];
    var j4 := Text.Join(ls[4..], sep);
    assert j4 == ls[4] + sep + ls[5];
    var j3 := Text.Join(ls[3..], sep);
    assert j3 == ls[3] + sep + ls[4] + sep + ls[5];
    var j2 := Text.Join(ls[2..], sep);
    assert j2 == ls[2] + sep + ls[3] + sep + ls[4] + sep + ls[5];
    var j1 := Text.Join(ls[1..], sep);
    assert j1 == ls[1] + sep + ls[2] + sep + ls[3] + sep + ls[4] + sep + ls[5];
  }

  /** When the stack is not empty, a run is one step followed by the rest. */
  lemma RunStep(reactions: Reactions, w: Work, w': Work, fuel: nat)
    requires |w.todo| > 0 && fuel > 0 && Step(reactions, w) == Ok(w')
    ensures Run(reactions, w, fuel) == Run(reactions, w', fuel - 1)
  {
  }

  /** Reactions that include the six of `test_example1`. */
  predicate HasExampleReactions(m: Reactions) {
    && "A" in m && m["A"] == Reaction("A", 10, [Entry("ORE", 10)])
    && "B" in m && m["B"] == Reaction("B", 1, [Entry("ORE", 1)])
    && "C" in m && m["C"] == Reaction("C", 1, [Entry("A", 7), Entry("B", 1)])
    && "D" in m && m["D"] == Reaction("D", 1, [Entry("A", 7), Entry("C", 1)])
    && "E" in m && m["E"] == Reaction("E", 1, [Entry("A", 7), Entry("D", 1)])
    && "FUEL" in m && m["FUEL"] == Reaction("FUEL", 1, [Entry("A", 7), Entry("E", 1)])
  }

  /** The example's reactions, looked up by output. */
  lemma ExampleLookups()
    ensures HasExampleReactions(KeyByProduct(Example()))
  {
    var rs := Example();
    KeyByProductLatest(rs, 0);
    KeyByProductLatest(rs, 1);
    KeyByProductLatest(rs, 2);
    KeyByProductLatest(rs, 3);
    KeyByProductLatest(rs, 4);
    KeyByProductLatest(rs, 5);
  }

  /** A request served from spare. */
  lemma ServeFromSpare(reactions: Reactions, w: Work, rest: seq<Request>, p: string, c: int)
    returns (w': Work)
    requires w.todo == rest + [Request(p, c)] && SpareOf(w.spare, p) >= c
    ensures Step(reactions, w) == Ok(w')
    ensures w'.todo == rest && w'.ore == w.ore
    ensures SpareOf(w'.spare, p) == SpareOf(w.spare, p) - c
    ensures forall q | q != p :: SpareOf(w'.spare, q) == SpareOf(w.spare, q)
  {
    StepCovered(reactions, w);
    assert w.todo[..|w.todo| - 1] == rest;
    w' := Step(reactions, w).value;
  }

  /** A reaction whose one input is ORE. */
  lemma StepOreReaction(reactions: Reactions, w: Work, rest: seq<Request>, p: string, n: i32, k: i32, c: int)
    returns (w': Work)
    requires w.todo == rest + [Request(p, c)]
    requires p in reactions && reactions[p] == Reaction(p, n, [Entry("ORE", k)])
    requires SpareOf(w.spare, p) < c
    ensures Step(reactions, w) == Ok(w')
    ensures w'.todo == rest + (if n < c then [Request(p, c - n)] else [])
    ensures w'.ore == w.ore + k
    ensures SpareOf(w'.spare, p) == SpareOf(w.spare, p) + (if n > c then n - c else 0)
    ensures forall q | q != p :: SpareOf(w'.spare, q) == SpareOf(w.spare, q)
  {
    assert w.todo[..|w.todo| - 1] == rest;
    var start := w.(todo := rest, spare := Reserve(w.spare, p), ran := w.ran + [p]);
    StepRunsReaction(reactions, w);
    assert [Entry("ORE", k)][..0] == [];
    assert UseInputs(start, [Entry("ORE", k)]) == start.(ore := w.ore + k);
    w' := Step(reactions, w).value;
  }

  /** A reaction making one unit from two inputs, neither covered by spare. */
  lemma StepPairReaction(reactions: Reactions, w: Work, rest: seq<Request>, p: string, x: Entry, y: Entry)
    returns (w': Work)
    requires w.todo == rest + [Request(p, 1)]
    requires p in reactions && reactions[p] == Reaction(p, 1, [x, y])
    requires x.product != "ORE" && y.product != "ORE" && x.product != y.product
    requires SpareOf(w.spare, p) < 1 && SpareOf(w.spare, x.product) < x.count
    requires SpareOf(w.spare, y.product) < y.count
    ensures Step(reactions, w) == Ok(w')
    ensures w'.todo == rest + [Request(x.product, x.count), Request(y.product, y.count)]
    ensures w'.ore == w.ore
    ensures forall q :: SpareOf(w'.spare, q) == SpareOf(w.spare, q)
  {
    assert w.todo[..|w.todo| - 1] == rest;
    var start := w.(todo := rest, spare := Reserve(w.spare, p), ran := w.ran + [p]);
    StepRunsReaction(reactions, w);
    assert [x, y][..1] == [x] && [x][..0] == [];
    var mid := UseInput(start, x);
    assert UseInputs(start, [x]) == mid;
    UseInputShort(start, x);
    UseInputShort(mid, y);
    assert UseInputs(start, [x, y]) == UseInput(mid, y);
    assert (rest + [Request(x.product, x.count)]) + [Request(y.product, y.count)]
        == rest + [Request(x.product, x.count), Request(y.product, y.count)];
    w' := Step(reactions, w).value;
  }

  /** The test's `build_product("A", 1, ...)`: one run of the A reaction for 10 ORE. */
  lemma ExampleOneA(fuel: nat)
    requires fuel >= 1
    ensures var m := ParseReactions(ExampleText());
      && m.Ok?
      && BuildProductSpec("A", 1, m.value, map[], fuel).Ok?
      && BuildProductSpec("A", 1, m.value, map[], fuel).value.ore == 10
  {
    ExampleParses();
    ExampleLookups();
    OneARun(KeyByProduct(Example()), fuel);
  }

  lemma OneARun(m: Reactions, fuel: nat)
    requires HasExampleReactions(m) && fuel >= 1
    ensures BuildProductSpec("A", 1, m, map[], fuel).Ok?
    ensures BuildProductSpec("A", 1, m, map[], fuel).value.ore == 10
  {
    var w0 := Work([Request("A", 1)], map[], 0, []);
    var w1 := StepOreReaction(m, w0, [], "A", 10, 10, 1);
    RunStep(m, w0, w1, fuel);
  }

  /** The test's `build_product("A", 11, ...)`: two runs of the A reaction,
      the second for the one unit still missing. */
  lemma ExampleElevenA(fuel: nat)
    requires fuel >= 2
    ensures var m := ParseReactions(ExampleText());
      && m.Ok?
      && BuildProductSpec("A", 11, m.value, map[], fuel).Ok?
      && BuildProductSpec("A", 11, m.value, map[], fuel).value.ore == 20
  {
    ExampleParses();
    ExampleLookups();
    ElevenARun(KeyByProduct(Example()), fuel);
  }

  lemma ElevenARun(m: Reactions, fuel: nat)
    requires HasExampleReactions(m) && fuel >= 2
    ensures BuildProductSpec("A", 11, m, map[], fuel).Ok?
    ensures BuildProductSpec("A", 11, m, map[], fuel).value.ore == 20
  {
    var w0 := Work([Request("A", 11)], map[], 0, []);
    var w1 := StepOreReaction(m, w0, [], "A", 10, 10, 11);
    var w2 := StepOreReaction(m, w1, [], "A", 10, 10, 1);
    RunStep(m, w0, w1, fuel);
    RunStep(m, w1, w2, fuel - 1);
  }

  /** No spare of anything. */
  ghost predicate NoSpare(w: Work) {
    forall q :: SpareOf(w.spare, q) == 0
  }

  /** FUEL and E each take 7 A and one unit of the next product down. */
  lemma FuelDescends(m: Reactions, w: Work, fuel: nat) returns (w': Work)
    requires HasExampleReactions(m) && fuel >= 2
    requires w.todo == [Request("FUEL", 1)] && w.ore == 0 && NoSpare(w)
    ensures Run(m, w, fuel) == Run(m, w', fuel - 2)
    ensures w'.todo == [Request("A", 7), Request("A", 7), Request("D", 1)]
    ensures w'.ore == 0 && NoSpare(w')
  {
    var w1 := StepPairReaction(m, w, [], "FUEL", Entry("A", 7), Entry("E", 1));
    w' := StepPairReaction(m, w1, [Request("A", 7)], "E", Entry("A", 7), Entry("D", 1));
    RunStep(m, w, w1, fuel);
    RunStep(m, w1, w', fuel - 1);
  }

  /** So do D and C. */
  lemma FuelDescendsFurther(m: Reactions, w: Work, fuel: nat) returns (w': Work)
    requires HasExampleReactions(m) && fuel >= 2
    requires w.todo == [Request("A", 7), Request("A", 7), Request("D", 1)]
    requires w.ore == 0 && NoSpare(w)
    ensures Run(m, w, fuel) == Run(m, w', fuel - 2)
    ensures w'.todo == [Request("A", 7), Request("A", 7), Request("A", 7), Request("A", 7), Request("B", 1)]
    ensures w'.ore == 0 && NoSpare(w')
  {
    var w1 := StepPairReaction(m, w, [Request("A", 7), Request("A", 7)], "D", Entry("A", 7), Entry("C", 1));
    w' := StepPairReaction(m, w1, [Request("A", 7), Request("A", 7), Request("A", 7)], "C", Entry("A", 7), Entry("B", 1));
    RunStep(m, w, w1, fuel);
    RunStep(m, w1, w', fuel - 1);
  }

  /** Then B costs 1 ORE and a run of A 10 ORE, leaving 3 A. */
  lemma FuelClimbs(m: Reactions, w: Work, fuel: nat) returns (w': Work)
    requires HasExampleReactions(m) && fuel >= 2
    requires w.todo == [Request("A", 7), Request("A", 7), Request("A", 7), Request("A", 7), Request("B", 1)]
    requires w.ore == 0 && NoSpare(w)
    ensures Run(m, w, fuel) == Run(m, w', fuel - 2)
    ensures w'.todo == [Request("A", 7), Request("A", 7), Request("A", 7)] && w'.ore == 11 && SpareOf(w'.spare, "A") == 3
  {
    var w1 := StepOreReaction(m, w, [Request("A", 7), Request("A", 7), Request("A", 7), Request("A", 7)], "B", 1, 1, 1);
    w' := StepOreReaction(m, w1, [Request("A", 7), Request("A", 7), Request("A", 7)], "A", 10, 10, 7);
    RunStep(m, w, w1, fuel);
    RunStep(m, w1, w', fuel - 1);
  }

  /** Two more runs of A cost 20 ORE and leave 9 A, of which the last
      request for 7 A is served. */
  lemma FuelClimbsFurther(m: Reactions, w: Work, fuel: nat) returns (w': Work)
    requires HasExampleReactions(m) && fuel >= 3
    requires w.todo == [Request("A", 7), Request("A", 7), Request("A", 7)] && w.ore == 11 && SpareOf(w.spare, "A") == 3
    ensures Run(m, w, fuel) == Run(m, w', fuel - 3)
    ensures w'.todo == [] && w'.ore == 31
  {
    var w1 := StepOreReaction(m, w, [Request("A", 7), Request("A", 7)], "A", 10, 10, 7);
    var w2 := StepOreReaction(m, w1, [Request("A", 7)], "A", 10, 10, 7);
    w' := ServeFromSpare(m, w2, [], "A", 7);
    RunStep(m, w, w1, fuel);
    RunStep(m, w1, w2, fuel - 1);
    RunStep(m, w2, w', fuel - 2);
  }

  lemma FuelRun(m: Reactions, fuel: nat)
    requires HasExampleReactions(m) && fuel >= 9
    ensures BuildProductSpec("FUEL", 1, m, map[], fuel).Ok?
    ensures BuildProductSpec("FUEL", 1, m, map[], fuel).value.ore == 31
  {
    var w0 := Work([Request("FUEL", 1)], map[], 0, []);
    var w2 := FuelDescends(m, w0, fuel);
    var w4 := FuelDescendsFurther(m, w2, fuel - 2);
    var w6 := FuelClimbs(m, w4, fuel - 4);
    var w9 := FuelClimbsFurther(m, w6, fuel - 6);
  }

  /** The test's `build_product("FUEL", 1, ...)`: 31 ORE. */
  lemma ExampleFuel(fuel: nat)
    requires fuel >= 9
    ensures var m := ParseReactions(ExampleText());
      && m.Ok?
      && BuildProductSpec("FUEL", 1, m.value, map[], fuel).Ok?
      && BuildProductSpec("FUEL", 1, m.value, map[], fuel).value.ore == 31
  {
    ExampleParses();
    ExampleLookups();
    FuelRun(KeyByProduct(Example()), fuel);
  }
}
