/** The challenge-to-document transformer and the ingestion dispatch of
    init/challenges/index.js: the slug function `dasherize`, the snippet
    builder `snippetGen`, the per-block formatting `reduce` inside
    `parseAndInsert`, and the module flag `isAnUpdate` that chooses between
    bulk insert and bulk upsert for every block. */
module Challenges {
  import opened Wrappers
  import opened JsString
  import Elastic
  import Seqs

  /** The index every challenge block is written to. */
  const ChallengeIndex: string := "challenge"

  /** The prefix of every challenge URL. */
  const ChallengeUrlBase: string := "https://freecodecamp.org/challenges/"

  /** How many characters of joined description text a snippet keeps. */
  const SnippetLength: nat := 100

  /** The literal appended to every snippet. */
  const Ellipsis: string := "..."

  // ---------------------------------------------------------------------
  // dasherize

  /** A character of the class `[a-z0-9\-\.]`. */
  predicate IsDashedChar(c: char)
  {
    ('a' <= c <= 'z') || ('0' <= c <= '9') || c == '-' || c == '.'
  }

  /** A character the case-insensitive class `/[a-z0-9\-\.]/i` matches. */
  predicate IsKeptChar(c: char)
  {
    IsDashedChar(c) || ('A' <= c <= 'Z')
  }

  /** `.replace(/\s/g, '-')`: every whitespace character becomes one `-`. */
  function DashWhitespace(s: string): string
  {
    if s == [] then [] else [if IsWhitespace(s[0]) then '-' else s[0]] + DashWhitespace(s[1..])
  }

  /** `.replace(/[^a-z0-9\-\.]/gi, '')`. */
  function StripUnsafe(s: string): string
  {
    if s == [] then [] else (if IsKeptChar(s[0]) then [s[0]] else []) + StripUnsafe(s[1..])
  }

  /** `.replace(/\:/g, '')`. */
  function RemoveColons(s: string): string
  {
    if s == [] then [] else (if s[0] == ':' then [] else [s[0]]) + RemoveColons(s[1..])
  }

  /** `dasherize(name)` on a string argument. */
  function Dasherize(name: string): string
  {
    RemoveColons(StripUnsafe(DashWhitespace(ToLower(name))))
  }

  /** What `dasherize` makes of one character: a whitespace character gives
      `-`, a character whose lower case is in `[a-z0-9\-\.]` gives that lower
      case, any other character gives nothing. */
  function SlugOf(c: char): (r: string)
    ensures |r| <= 1
  {
    var l := LowerChar(c);
    if IsWhitespace(c) then "-" else if IsDashedChar(l) then [l] else []
  }

  /** The reference definition of `dasherize`: `SlugOf` of each character,
      concatenated in order. */
  function SlugOfEach(s: string): string
  {
    if s == [] then [] else SlugOf(s[0]) + SlugOfEach(s[1..])
  }

  lemma {:induction false} DashWhitespaceAppend(a: string, b: string)
    ensures DashWhitespace(a + b) == DashWhitespace(a) + DashWhitespace(b)
  {
    if a == [] {
      assert a + b == b;
    } else {
      assert (a + b)[0] == a[0] && (a + b)[1..] == a[1..] + b;
      DashWhitespaceAppend(a[1..], b);
      Seqs.AppendAssoc([if IsWhitespace(a[0]) then '-' else a[0]], DashWhitespace(a[1..]), DashWhitespace(b));
    }
  }

  lemma {:induction false} StripUnsafeAppend(a: string, b: string)
    ensures StripUnsafe(a + b) == StripUnsafe(a) + StripUnsafe(b)
  {
    if a == [] {
      assert a + b == b;
    } else {
      assert (a + b)[0] == a[0] && (a + b)[1..] == a[1..] + b;
      StripUnsafeAppend(a[1..], b);
      Seqs.AppendAssoc((if IsKeptChar(a[0]) then [a[0]] else []), StripUnsafe(a[1..]), StripUnsafe(b));
    }
  }

  lemma {:induction false} RemoveColonsAppend(a: string, b: string)
    ensures RemoveColons(a + b) == RemoveColons(a) + RemoveColons(b)
  {
    if a == [] {
      assert a + b == b;
    } else {
      assert (a + b)[0] == a[0] && (a + b)[1..] == a[1..] + b;
      RemoveColonsAppend(a[1..], b);
      Seqs.AppendAssoc((if a[0] == ':' then [] else [a[0]]), RemoveColons(a[1..]), RemoveColons(b));
    }
  }

  /** The colon pass is redundant: after the strip no `:` is left. */
  lemma {:induction false} RemoveColonsAfterStrip(s: string)
    ensures RemoveColons(StripUnsafe(s)) == StripUnsafe(s)
  {
    if s != [] {
      var k: string := if IsKeptChar(s[0]) then [s[0]] else [];
      RemoveColonsAfterStrip(s[1..]);
      RemoveColonsAppend(k, StripUnsafe(s[1..]));
      if k != [] {
        assert k[1..] == [];
      }
    }
  }

  /** `dasherize` works character by character. */
  lemma {:induction false} DasherizeAppend(a: string, b: string)
    ensures Dasherize(a + b) == Dasherize(a) + Dasherize(b)
  {
    ToLowerAppend(a, b);
    DashWhitespaceAppend(ToLower(a), ToLower(b));
    StripUnsafeAppend(DashWhitespace(ToLower(a)), DashWhitespace(ToLower(b)));
    RemoveColonsAppend(StripUnsafe(DashWhitespace(ToLower(a))), StripUnsafe(DashWhitespace(ToLower(b))));
  }

  lemma DasherizeChar(c: char)
    ensures Dasherize([c]) == SlugOf(c)
  {
    var l := LowerChar(c);
    assert [c][1..] == [];
    assert ToLower([c]) == [l];
    assert IsWhitespace(l) == IsWhitespace(c);
    var d := if IsWhitespace(l) then '-' else l;
    assert [l][1..] == [];
    assert DashWhitespace([l]) == [d];
    assert [d][1..] == [];
    var k: string := if IsKeptChar(d) then [d] else [];
    assert StripUnsafe([d]) == k;
    assert !('A' <= l <= 'Z');
    assert IsKeptChar(d) == (IsWhitespace(c) || IsDashedChar(l));
    if k != [] {
      assert k[1..] == [];
      assert d != ':';
      assert RemoveColons(k) == k;
    } else {
      assert RemoveColons(k) == [];
    }
  }

  /** `dasherize` agrees with its per-character reference definition. */
  lemma {:induction false} DasherizeIsPerChar(s: string)
    ensures Dasherize(s) == SlugOfEach(s)
  {
    if s != [] {
      assert s == [s[0]] + s[1..];
      DasherizeAppend([s[0]], s[1..]);
      DasherizeChar(s[0]);
      DasherizeIsPerChar(s[1..]);
    }
  }

  lemma {:induction false} SlugsAreDashed(s: string)
    ensures forall i :: 0 <= i < |SlugOfEach(s)| ==> IsDashedChar(SlugOfEach(s)[i])
    ensures |SlugOfEach(s)| <= |s|
  {
    if s != [] {
      SlugsAreDashed(s[1..]);
    }
  }

  /** `dasherize` yields only characters of `[a-z0-9\-\.]` (so never `:`, an
      upper-case letter or whitespace) and never lengthens its argument. */
  lemma DasherizeCharset(s: string)
    ensures forall i :: 0 <= i < |Dasherize(s)| ==> IsDashedChar(Dasherize(s)[i])
    ensures forall i :: 0 <= i < |Dasherize(s)| ==> Dasherize(s)[i] != ':' && !IsWhitespace(Dasherize(s)[i])
    ensures |Dasherize(s)| <= |s|
  {
    DasherizeIsPerChar(s);
    SlugsAreDashed(s);
  }

  /** A string already made of `[a-z0-9\-\.]` is left alone. */
  lemma {:induction false} DasherizeKeepsDashed(t: string)
    requires forall i :: 0 <= i < |t| ==> IsDashedChar(t[i])
    ensures Dasherize(t) == t
  {
    if t != [] {
      DasherizeAppend([t[0]], t[1..]);
      assert [t[0]] + t[1..] == t;
      DasherizeChar(t[0]);
      DasherizeKeepsDashed(t[1..]);
    }
  }

  /** `dasherize` is idempotent. */
  lemma DasherizeIdempotent(s: string)
    ensures Dasherize(Dasherize(s)) == Dasherize(s)
  {
    DasherizeCharset(s);
    DasherizeKeepsDashed(Dasherize(s));
  }

  /** A single whitespace character becomes exactly one `-`, whatever stands
      around it, so a run of n whitespace characters gives n dashes. */
  lemma DasherizeWhitespace(a: string, w: char, b: string)
    requires IsWhitespace(w)
    ensures Dasherize(a + [w] + b) == Dasherize(a) + "-" + Dasherize(b)
  {
    DasherizeAppend(a + [w], b);
    DasherizeAppend(a, [w]);
    DasherizeChar(w);
  }

  /** Two whitespace characters in a row give two dashes. */
  lemma DasherizeDoubleWhitespace(a: string, w1: char, w2: char, b: string)
    requires IsWhitespace(w1) && IsWhitespace(w2)
    ensures Dasherize(a + [w1] + ([w2] + b)) == Dasherize(a) + "-" + ("-" + Dasherize(b))
  {
    DasherizeWhitespace(a, w1, [w2] + b);
    assert [w2] + b == [] + [w2] + b;
    DasherizeWhitespace([], w2, b);
  }

  /** A capital followed by slug characters only loses its capital. */
  lemma DasherizeCapitalized(c: char, t: string)
    requires 'A' <= c <= 'Z'
    requires forall i :: 0 <= i < |t| ==> IsDashedChar(t[i])
    ensures Dasherize([c] + t) == [LowerChar(c)] + t
    ensures Dasherize([c] + t) == Dasherize([LowerChar(c)] + t)
  {
    DasherizeAppend([c], t);
    DasherizeChar(c);
    DasherizeKeepsDashed(t);
    var l := [LowerChar(c)] + t;
    assert forall i :: 0 <= i < |l| ==> IsDashedChar(l[i]) by {
      forall i | 0 <= i < |l| ensures IsDashedChar(l[i]) {
        if i > 0 { assert l[i] == t[i - 1]; }
      }
    }
    DasherizeKeepsDashed(l);
  }

  /** Runs are not collapsed: "Say  Hello" (two spaces) gives "say--hello". */
  lemma DasherizeTwoSpaces()
    ensures Dasherize("Say  Hello") == "say--hello"
  {
    DasherizeTwoSpacesOf("Say  Hello");
  }

  lemma DasherizeTwoSpacesOf(s: string)
    requires s == "Say  Hello"
    ensures Dasherize(s) == "say--hello"
  {
    var say, hello := ['S'] + "ay", ['H'] + "ello";
    assert s == say + [' '] + ([' '] + hello);
    DasherizeDoubleWhitespace(say, ' ', ' ', hello);
    DasherizeCapitalized('S', "ay");
    DasherizeCapitalized('H', "ello");
  }

  /** "Say Hello" gives "say-hello". */
  lemma DasherizeSayHello()
    ensures Dasherize("Say Hello") == "say-hello"
  {
    DasherizeSayHelloOf("Say Hello");
  }

  lemma DasherizeSayHelloOf(s: string)
    requires s == "Say Hello"
    ensures Dasherize(s) == "say-hello"
  {
    var say, hello := ['S'] + "ay", ['H'] + "ello";
    assert s == say + [' '] + hello;
    DasherizeWhitespace(say, ' ', hello);
    DasherizeCapitalized('S', "ay");
    DasherizeCapitalized('H', "ello");
  }

  // ---------------------------------------------------------------------
  // snippetGen and the description field

  /** `snippetGen(description)`: `""` when the description is absent;
      otherwise the lines joined with `' '`, cut to 100 characters, trimmed,
      with `"..."` appended, which holds for the empty array too. */
  function SnippetGen(description: Option<seq<string>>): (r: string)
    ensures description.None? ==> r == ""
    ensures description.Some? ==> |Ellipsis| <= |r| <= SnippetLength + |Ellipsis|
    ensures description.Some? ==> r[|r| - |Ellipsis|..] == Ellipsis
  {
    match description
    case None => ""
    case Some(lines) => Trim(Slice(Join(lines, " "), SnippetLength)) + Ellipsis
  }

  /** The text before the ellipsis is one contiguous piece of the first 100
      characters of the `' '`-joined lines, with only whitespace cut off on
      either side and none left at its ends. */
  lemma SnippetText(lines: seq<string>) returns (k: nat, text: string)
    ensures SnippetGen(Some(lines)) == text + Ellipsis
    ensures var cut := Slice(Join(lines, " "), SnippetLength);
      && k + |text| <= |cut| && text == cut[k..k + |text|]
      && (forall i :: 0 <= i < k ==> IsWhitespace(cut[i]))
      && (forall i :: k + |text| <= i < |cut| ==> IsWhitespace(cut[i]))
      && (text == [] || (!IsWhitespace(text[0]) && !IsWhitespace(text[|text| - 1])))
  {
    var cut := Slice(Join(lines, " "), SnippetLength);
    k := TrimIsInfix(cut);
    text := Trim(cut);
  }

  /** A joined text of at most 100 characters with no whitespace at its ends
      appears whole, followed by `"..."`. */
  lemma SnippetOfShortText(lines: seq<string>)
    requires |Join(lines, " ")| <= SnippetLength
    requires var j := Join(lines, " "); j == [] || (!IsWhitespace(j[0]) && !IsWhitespace(j[|j| - 1]))
    ensures SnippetGen(Some(lines)) == Join(lines, " ") + Ellipsis
  {
    TrimOfTrimmed(Join(lines, " "));
  }

  /** An empty but present description is truthy: its snippet is `"..."`. */
  lemma SnippetOfEmptyArray()
    ensures SnippetGen(Some([])) == Ellipsis
  {
  }

  /** The `description` field: the lines joined with `''` and trimmed, `""`
      when absent. */
  function DescriptionField(description: Option<seq<string>>): (r: string)
    ensures description.None? ==> r == ""
    ensures description.Some? ==> |r| <= |Join(description.value, "")|
    ensures r == [] || (!IsWhitespace(r[0]) && !IsWhitespace(r[|r| - 1]))
  {
    match description
    case None => ""
    case Some(lines) =>
      var t := TrimStart(Join(lines, ""));
      assert TrimEnd(t) != [] ==> TrimEnd(t)[0] == t[0];
      Trim(Join(lines, ""))
  }

  /** The `description` field of a present description is one contiguous
      piece of the `''`-joined lines, with only whitespace cut off on either
      side and none left at its ends. */
  lemma DescriptionText(lines: seq<string>) returns (k: nat)
    ensures var joined := Join(lines, ""); var r := DescriptionField(Some(lines));
      && k + |r| <= |joined| && r == joined[k..k + |r|]
      && (forall i :: 0 <= i < k ==> IsWhitespace(joined[i]))
      && (forall i :: k + |r| <= i < |joined| ==> IsWhitespace(joined[i]))
  {
    k := TrimIsInfix(Join(lines, ""));
  }

  // ---------------------------------------------------------------------
  // Formatting a block

  /** A raw challenge of a block: `{ id, title, description }`, the
      description being an array of lines that may be absent. */
  datatype Challenge = Challenge(id: string, title: string, description: Option<seq<string>>)

  /** A block `{ name, challenges }` as the content source yields it. */
  datatype Block = Block(name: string, challenges: seq<Challenge>)

  /** The indexable document formatted from one challenge. */
  datatype FormattedChallenge = FormattedChallenge(
    blockName: string,
    id: string,
    title: string,
    dashedName: string,
    description: string,
    snippet: string,
    url: string)

  /** `{ block, challenges }`: the dasherized block name and its documents. */
  datatype FormattedBlock = FormattedBlock(block: string, challenges: seq<FormattedChallenge>)

  /** The document the reducer builds for one challenge of block `name`. */
  function FormatChallenge(name: string, c: Challenge): FormattedChallenge
  {
    var dashedName := Dasherize(c.title);
    FormattedChallenge(
      name, c.id, c.title, dashedName,
      DescriptionField(c.description), SnippetGen(c.description),
      ChallengeUrlBase + dashedName)
  }

  /** `challenges.reduce((acc, current) => [...acc, format(current)], [])`. */
  function FormatChallenges(name: string, challenges: seq<Challenge>): seq<FormattedChallenge>
  {
    if challenges == [] then []
    else
      var n := |challenges| - 1;
      FormatChallenges(name, challenges[..n]) + [FormatChallenge(name, challenges[n])]
  }

  /** The reducer yields one document per challenge, in input order:
      document i is formatted from challenge i. */
  lemma {:induction false} FormatChallengesAt(name: string, challenges: seq<Challenge>)
    ensures |FormatChallenges(name, challenges)| == |challenges|
    ensures forall i :: 0 <= i < |challenges| ==>
      FormatChallenges(name, challenges)[i] == FormatChallenge(name, challenges[i])
  {
    if challenges != [] {
      var n := |challenges| - 1;
      var d := FormatChallenge(name, challenges[n]);
      FormatChallengesAt(name, challenges[..n]);
      assert FormatChallenges(name, challenges) == FormatChallenges(name, challenges[..n]) + [d];
      forall i | 0 <= i < |challenges|
        ensures FormatChallenges(name, challenges)[i] == FormatChallenge(name, challenges[i])
      {
        if i < n {
          assert challenges[..n][i] == challenges[i];
        }
      }
    }
  }

  /** The value the `flatMap` step emits for one block. */
  function FormatBlock(b: Block): FormattedBlock
  {
    FormattedBlock(Dasherize(b.name), FormatChallenges(b.name, b.challenges))
  }

  /** What each document of a formatted block holds: `id` and `title` copied,
      `blockName` the raw block name, `dashedName` the dasherized title (so
      made of `[a-z0-9\-\.]` and itself a fixed point of `dasherize`), `url`
      the challenges prefix followed by `dashedName`, and the description and
      snippet derived from the raw description lines. */
  lemma FormatBlockFields(b: Block)
    ensures FormatBlock(b).block == Dasherize(b.name)
    ensures |FormatBlock(b).challenges| == |b.challenges|
    ensures forall i :: 0 <= i < |b.challenges| ==>
      var d := FormatBlock(b).challenges[i];
      var c := b.challenges[i];
      && d.id == c.id && d.title == c.title && d.blockName == b.name
      && d.dashedName == Dasherize(c.title)
      && Dasherize(d.dashedName) == d.dashedName
      && (forall j :: 0 <= j < |d.dashedName| ==> IsDashedChar(d.dashedName[j]))
      && d.url == ChallengeUrlBase + d.dashedName
      && d.description == DescriptionField(c.description)
      && d.snippet == SnippetGen(c.description)
  {
    FormatChallengesAt(b.name, b.challenges);
    forall i | 0 <= i < |b.challenges|
      ensures var d := FormatBlock(b).challenges[i];
        && Dasherize(d.dashedName) == d.dashedName
        && (forall j :: 0 <= j < |d.dashedName| ==> IsDashedChar(d.dashedName[j]))
    {
      DasherizeIdempotent(b.challenges[i].title);
      DasherizeCharset(b.challenges[i].title);
    }
  }

  /** The document formatted from a one-challenge block is that
      challenge's document. */
  lemma FormatSingleton(name: string, c: Challenge)
    ensures FormatBlock(Block(name, [c])).challenges == [FormatChallenge(name, c)]
  {
    FormatChallengesAt(name, [c]);
  }

  /** The worked example: block "Basics" with the one challenge "Say Hello"
      whose description lines are "Print" and "hello world". The description
      joins the lines with nothing between them, the snippet with a space. */
  lemma FormatExample()
    ensures var b := Block("Basics", [Challenge("1", "Say Hello", Some(["Print", "hello world"]))]);
      |FormatBlock(b).challenges| == 1
    ensures var d := FormatBlock(Block("Basics", [Challenge("1", "Say Hello", Some(["Print", "hello world"]))])).challenges[0];
      && d.blockName == "Basics" && d.id == "1" && d.title == "Say Hello"
      && d.dashedName == "say-hello"
      && d.description == "Printhello world"
      && d.snippet == "Print hello world..."
      && d.url == ChallengeUrlBase + "say-hello"
  {
    var c := Challenge("1", "Say Hello", Some(["Print", "hello world"]));
    FormatSingleton("Basics", c);
    DasherizeSayHello();
    DescriptionExample();
    SnippetExample();
  }

  lemma DescriptionExample()
    ensures DescriptionField(Some(["Print", "hello world"])) == "Printhello world"
  {
    var lines := ["Print", "hello world"];
    assert lines[1..] == ["hello world"];
    assert Join(lines, "") == "Printhello world";
    TrimOfTrimmed("Printhello world");
  }

  lemma SnippetExample()
    ensures SnippetGen(Some(["Print", "hello world"])) == "Print hello world..."
  {
    SnippetExampleOf(["Print", "hello world"]);
  }

  lemma SnippetExampleOf(lines: seq<string>)
    requires lines == ["Print", "hello world"]
    ensures SnippetGen(Some(lines)) == "Print hello world..."
  {
    var joined := "Print hello world";
    JoinExample(lines, joined);
    assert !IsWhitespace(joined[0]) && !IsWhitespace(joined[|joined| - 1]);
    SnippetOfShortText(lines);
  }

  lemma JoinExample(lines: seq<string>, joined: string)
    requires lines == ["Print", "hello world"] && joined == "Print hello world"
    ensures Join(lines, " ") == joined && |joined| <= SnippetLength
  {
    assert lines[1..] == ["hello world"];
  }

  // ---------------------------------------------------------------------
  // Dispatching a block to the index

  /** A JavaScript value, for the truthiness test `!!update`. */
  datatype JsValue = Undefined | Null | Bool(b: bool) | Number(n: int) | Str(s: string) | Object

  /** `!!v`. */
  function Truthy(v: JsValue): (r: bool)
    ensures r <==> !(v.Undefined? || v.Null? || v == Bool(false) || v == Number(0) || v == Str(""))
  {
    match v
    case Undefined => false
    case Null => false
    case Bool(b) => b
    case Number(n) => n != 0
    case Str(s) => s != ""
    case Object => true
  }

  /** A call into the indexing module for one block. */
  datatype WriteCall =
    | BulkInsertCall(args: Elastic.BulkArgs<FormattedChallenge>)
    | BulkUpsertCall(args: Elastic.BulkArgs<FormattedChallenge>)

  /** The write the `subscribe` callback makes for one formatted block:
      index `'challenge'`, the block's slug as type, upsert on an update. */
  function BlockWrite(isAnUpdate: bool, fb: FormattedBlock): (w: WriteCall)
    ensures w.BulkUpsertCall? <==> isAnUpdate
    ensures w.args == Elastic.BulkArgs(ChallengeIndex, fb.block, fb.challenges)
  {
    var args := Elastic.BulkArgs(ChallengeIndex, fb.block, fb.challenges);
    if isAnUpdate then BulkUpsertCall(args) else BulkInsertCall(args)
  }

  /** The writes an ingestion run makes: the callback's write for each
      block, appended in block order. */
  function BlockWrites(isAnUpdate: bool, blocks: seq<Block>): seq<WriteCall>
  {
    if blocks == [] then []
    else
      var n := |blocks| - 1;
      BlockWrites(isAnUpdate, blocks[..n]) + [BlockWrite(isAnUpdate, FormatBlock(blocks[n]))]
  }

  /** One write per block, in block order: write i is the one for block i. */
  lemma {:induction false} BlockWritesAt(isAnUpdate: bool, blocks: seq<Block>)
    ensures |BlockWrites(isAnUpdate, blocks)| == |blocks|
    ensures forall i :: 0 <= i < |blocks| ==>
      BlockWrites(isAnUpdate, blocks)[i] == BlockWrite(isAnUpdate, FormatBlock(blocks[i]))
  {
    if blocks != [] {
      var n := |blocks| - 1;
      var w := BlockWrite(isAnUpdate, FormatBlock(blocks[n]));
      BlockWritesAt(isAnUpdate, blocks[..n]);
      assert BlockWrites(isAnUpdate, blocks) == BlockWrites(isAnUpdate, blocks[..n]) + [w];
      forall i | 0 <= i < |blocks|
        ensures BlockWrites(isAnUpdate, blocks)[i] == BlockWrite(isAnUpdate, FormatBlock(blocks[i]))
      {
        if i < n {
          assert blocks[..n][i] == blocks[i];
        }
      }
    }
  }

  lemma BlockWritesSnoc(isAnUpdate: bool, blocks: seq<Block>, b: Block)
    ensures BlockWrites(isAnUpdate, blocks + [b]) == BlockWrites(isAnUpdate, blocks) + [BlockWrite(isAnUpdate, FormatBlock(b))]
  {
    assert (blocks + [b])[..|blocks|] == blocks;
  }

  /** One more block of the run appends its write to the log. */
  lemma WritesStep(before: seq<WriteCall>, isAnUpdate: bool, blocks: seq<Block>, i: nat)
    requires i < |blocks|
    ensures before + BlockWrites(isAnUpdate, blocks[..i + 1])
      == (before + BlockWrites(isAnUpdate, blocks[..i])) + [BlockWrite(isAnUpdate, FormatBlock(blocks[i]))]
  {
    assert blocks[..i + 1] == blocks[..i] + [blocks[i]];
    BlockWritesSnoc(isAnUpdate, blocks[..i], blocks[i]);
    Seqs.AppendAssoc(before, BlockWrites(isAnUpdate, blocks[..i]), [BlockWrite(isAnUpdate, FormatBlock(blocks[i]))]);
  }

  /** Every block is written once, in order, to index `'challenge'` under the
      type `dasherize(name)`, with one document per challenge, by upsert
      exactly when the run is an update. */
  lemma BlockWritesShape(isAnUpdate: bool, blocks: seq<Block>)
    ensures var r := BlockWrites(isAnUpdate, blocks);
      && |r| == |blocks|
      && forall i :: 0 <= i < |blocks| ==>
        && r[i].args.index == ChallengeIndex
        && r[i].args.typeName == Dasherize(blocks[i].name)
        && r[i].args.documents == FormatChallenges(blocks[i].name, blocks[i].challenges)
        && |r[i].args.documents| == |blocks[i].challenges|
        && (r[i].BulkUpsertCall? <==> isAnUpdate)
  {
    BlockWritesAt(isAnUpdate, blocks);
    forall i | 0 <= i < |blocks|
      ensures |FormatChallenges(blocks[i].name, blocks[i].challenges)| == |blocks[i].challenges|
    {
      FormatChallengesAt(blocks[i].name, blocks[i].challenges);
    }
  }

  /** On the insert path the engine receives, for each block, a bulk body of
      two lines per challenge whose document lines are the formatted
      challenges in order. */
  lemma InsertRequestForBlock(b: Block)
    ensures var args := BlockWrite(false, FormatBlock(b)).args;
      var body := Elastic.BulkInsertBody(args.index, args.typeName, args.documents);
      && |body| == 2 * |b.challenges|
      && Elastic.BodyDocuments(body) == FormatChallenges(b.name, b.challenges)
      && forall i :: 0 <= i < |b.challenges| ==>
        body[2 * i] == Elastic.ActionLine(Elastic.IndexAction(ChallengeIndex, Dasherize(b.name)))
  {
    var fb := FormatBlock(b);
    FormatChallengesAt(b.name, b.challenges);
    Elastic.BulkInsertBodyDocuments(ChallengeIndex, fb.block, fb.challenges);
  }

  /** What a call made by name into the indexing module does when the name
      is not exported: the call throws a `TypeError`. */
  datatype DispatchOutcome = Issued(call: WriteCall) | ThrewTypeError(callee: string)

  /** The dispatch as the code is written: `bulkUpsert` and `bulkInsert` are
      taken from the indexing module's exports, and calling a name that is not
      exported throws. */
  function BlockWriteAsWritten(isAnUpdate: bool, fb: FormattedBlock): (o: DispatchOutcome)
    ensures o.Issued? <==> (if isAnUpdate then "bulkUpsert" else "bulkInsert") in Elastic.Exports
    ensures o.Issued? ==> o.call == BlockWrite(isAnUpdate, fb)
    ensures o.ThrewTypeError? ==> o.callee == if isAnUpdate then "bulkUpsert" else "bulkInsert"
  {
    var callee := if isAnUpdate then "bulkUpsert" else "bulkInsert";
    if callee in Elastic.Exports then Issued(BlockWrite(isAnUpdate, fb)) else ThrewTypeError(callee)
  }

  /** As written, the update path never writes: `bulkUpsert` is not exported,
      so every update dispatch throws, while the insert path issues the
      write the corrected dispatch `BlockWrite` makes. */
  lemma UpdatePathThrowsAsWritten(fb: FormattedBlock)
    ensures BlockWriteAsWritten(true, fb) == ThrewTypeError("bulkUpsert")
    ensures BlockWriteAsWritten(false, fb) == Issued(BlockWrite(false, fb))
    ensures BlockWrite(true, fb).BulkUpsertCall?
  {
    assert "bulkUpsert" != "bulkInsert" && "bulkUpsert" != "deleteAll" && "bulkUpsert" != "findTheThings"
      && "bulkUpsert" != "getAllTitleFields" && "bulkUpsert" != "singleInsert";
  }

  /** The module state of init/challenges/index.js: the flag `isAnUpdate`
      and the writes its `subscribe` callback has made into the indexing
      module. */
  class Ingestor {
    var isAnUpdate: bool
    var writes: seq<WriteCall>

    /** Loading the module: `let isAnUpdate = false`. */
    constructor ()
      ensures !isAnUpdate && writes == []
    {
      isAnUpdate := false;
      writes := [];
    }

    /** `parseAndInsert` over the blocks the content source yields: each
        block is formatted and written, in block order. */
    method ParseAndInsert(blocks: seq<Block>)
      modifies this
      ensures isAnUpdate == old(isAnUpdate)
      ensures writes == old(writes) + BlockWrites(isAnUpdate, blocks)
    {
      var update := isAnUpdate;
      ghost var before := writes;
      for i := 0 to |blocks|
        invariant isAnUpdate == update
        invariant writes == before + BlockWrites(update, blocks[..i])
      {
        var w := BlockWrite(update, FormatBlock(blocks[i]));
        WritesStep(before, update, blocks, i);
        writes := writes + [w];
      }
      assert blocks[..|blocks|] == blocks;
    }

    /** `getChallengeData(update)` once the fresh content is in: sets
        `isAnUpdate` to `!!update`, then ingests the blocks. */
    method GetChallengeData(update: JsValue, blocks: seq<Block>)
      modifies this
      ensures isAnUpdate == Truthy(update)
      ensures writes == old(writes) + BlockWrites(Truthy(update), blocks)
    {
      isAnUpdate := Truthy(update);
      ParseAndInsert(blocks);
    }
  }
}
