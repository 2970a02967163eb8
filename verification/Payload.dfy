// The --payload flag: its grammar, its parser and its printer.
module Payload {
  import opened Wrappers
  import opened Int64
  import opened Folds
  import opened Text

  datatype Shape = Unspecified | Str | Bytes | EmbeddingFloat | EmbeddingBytes | Mixed

  datatype Entry = Entry(shape: Shape, weight: int)

  datatype ParseError =
    EmptyMix | UnknownShape | InvalidWeight | MalformedToken | DuplicateShape | MixedWeighting

  // One parsed token: its entry, and whether it spelled out a weight.
  datatype Token = Token(entry: Entry, weighted: bool)

  function ShapeNamed(name: string): Option<Shape> {
    if name == "string" then Some(Str)
    else if name == "bytes" then Some(Bytes)
    else if name == "embedding-float" then Some(EmbeddingFloat)
    else if name == "embedding-bytes" then Some(EmbeddingBytes)
    else if name == "mixed" then Some(Mixed)
    else None
  }

  // The inverse table; a shape it does not list prints as nothing.
  function FlagName(shape: Shape): string {
    match shape
    case Unspecified => ""
    case Str => "string"
    case Bytes => "bytes"
    case EmbeddingFloat => "embedding-float"
    case EmbeddingBytes => "embedding-bytes"
    case Mixed => "mixed"
  }

  // The five names of the flag.
  lemma FlagNames(name: string)
    ensures ShapeNamed(name) == Some(Str) <==> name == "string"
    ensures ShapeNamed(name) == Some(Bytes) <==> name == "bytes"
    ensures ShapeNamed(name) == Some(EmbeddingFloat) <==> name == "embedding-float"
    ensures ShapeNamed(name) == Some(EmbeddingBytes) <==> name == "embedding-bytes"
    ensures ShapeNamed(name) == Some(Mixed) <==> name == "mixed"
    ensures ShapeNamed(name) != Some(Unspecified)
    ensures FlagName(Str) == "string" && FlagName(Bytes) == "bytes" && FlagName(Mixed) == "mixed"
    ensures FlagName(EmbeddingFloat) == "embedding-float" && FlagName(EmbeddingBytes) == "embedding-bytes"
  {
  }

  function EntryOf(): Token -> Entry {
    (t: Token) => t.entry
  }

  function IsWeighted(): Token -> bool {
    (t: Token) => t.weighted
  }

  function ShapesOf(tokens: seq<Token>): set<Shape> {
    set t | t in tokens :: t.entry.shape
  }

  function Entries(tokens: seq<Token>): (mix: seq<Entry>)
    ensures |mix| == |tokens|
    ensures forall i :: 0 <= i < |mix| ==> mix[i] == tokens[i].entry
  {
    Apply(tokens, EntryOf())
  }

  // ----- the parser, as a function

  function ParseToken(text: string, seen: set<Shape>): Outcome<Token, ParseError> {
    var parts := Split(text, ':');
    if text == "" || |parts| > 2 || parts[0] == "" then Err(MalformedToken)
    else
      match ShapeNamed(parts[0])
      case None => Err(UnknownShape)
      case Some(shape) =>
        if shape in seen then Err(DuplicateShape)
        else if |parts| == 1 then Ok(Token(Entry(shape, 1), false))
        else if parts[1] == "" then Err(InvalidWeight)
        else
          match Atoi(parts[1])
          case None => Err(InvalidWeight)
          case Some(w) => if w < 0 then Err(InvalidWeight) else Ok(Token(Entry(shape, w), true))
  }

  // The first k tokens, read left to right; the first failure stops it.
  function ParseUpTo(texts: seq<string>, k: nat): (r: Outcome<seq<Token>, ParseError>)
    requires k <= |texts|
    ensures r.Ok? ==> |r.value| == k
  {
    if k == 0 then Ok([])
    else
      match ParseUpTo(texts, k - 1)
      case Err(e) => Err(e)
      case Ok(tokens) =>
        match ParseToken(texts[k - 1], ShapesOf(tokens))
        case Err(e) => Err(e)
        case Ok(t) => Ok(tokens + [t])
  }

  function Parse(s: string): Outcome<seq<Entry>, ParseError> {
    var trimmed := TrimSpace(s);
    if trimmed == "" then Err(EmptyMix)
    else
      var texts := Split(trimmed, ',');
      match ParseUpTo(texts, |texts|)
      case Err(e) => Err(e)
      case Ok(tokens) =>
        if UniformlyWeighted(tokens) then Ok(Entries(tokens)) else Err(MixedWeighting)
  }

  predicate UniformlyWeighted(tokens: seq<Token>) {
    (forall t | t in tokens :: t.weighted) || (forall t | t in tokens :: !t.weighted)
  }

  lemma {:induction false} FailureSticks(texts: seq<string>, k: nat, n: nat)
    requires k <= n <= |texts| && ParseUpTo(texts, k).Err?
    ensures ParseUpTo(texts, n) == ParseUpTo(texts, k)
  {
    if k < n { FailureSticks(texts, k, n - 1); }
  }

  lemma {:induction false} WeightedCount(tokens: seq<Token>)
    ensures var n := SumBy(tokens, One(IsWeighted()));
            && 0 <= n <= |tokens|
            && (n == |tokens| <==> forall t | t in tokens :: t.weighted)
            && (n == 0 <==> forall t | t in tokens :: !t.weighted)
  {
    if tokens != [] {
      var front, last := tokens[..|tokens| - 1], tokens[|tokens| - 1];
      assert tokens == front + [last];
      WeightedCount(front);
    }
  }

  // One turn of the parsing loop.
  method ReadToken(text: string, seen: set<Shape>) returns (r: Outcome<Token, ParseError>)
    ensures r == ParseToken(text, seen)
  {
    if text == "" {
      return Err(MalformedToken);
    }
    var parts := Split(text, ':');
    if |parts| > 2 {
      return Err(MalformedToken);
    }
    var name := parts[0];
    if name == "" {
      return Err(MalformedToken);
    }
    var known := ShapeNamed(name);
    if known.None? {
      return Err(UnknownShape);
    }
    if known.value in seen {
      return Err(DuplicateShape);
    }
    if |parts| == 1 {
      return Ok(Token(Entry(known.value, 1), false));
    }
    if parts[1] == "" {
      return Err(InvalidWeight);
    }
    var w := Atoi(parts[1]);
    if w.None? || w.value < 0 {
      return Err(InvalidWeight);
    }
    return Ok(Token(Entry(known.value, w.value), true));
  }

  lemma TokenAppended(tokens: seq<Token>, t: Token)
    ensures Entries(tokens + [t]) == Entries(tokens) + [t.entry]
    ensures ShapesOf(tokens + [t]) == ShapesOf(tokens) + {t.entry.shape}
    ensures SumBy(tokens + [t], One(IsWeighted())) == SumBy(tokens, One(IsWeighted())) + (if t.weighted then 1 else 0)
  {
    SumAppend(tokens, t, One(IsWeighted()));
    ApplyAppend(tokens, t, EntryOf());
  }

  // The check after the loop: some but not all tokens weighted.
  lemma MixedCount(tokens: seq<Token>)
    ensures var n := SumBy(tokens, One(IsWeighted()));
            UniformlyWeighted(tokens) <==> n == 0 || n == |Entries(tokens)|
  {
    WeightedCount(tokens);
  }

  lemma NoTokens()
    ensures Entries([]) == [] && ShapesOf([]) == {} && SumBy([], One(IsWeighted())) == 0
  {
  }

  method ParsePayloadMix(s: string) returns (r: Outcome<seq<Entry>, ParseError>)
    ensures r == Parse(s)
  {
    hide ParseToken, Entries, ShapesOf, SumBy, Split, TrimSpace, UniformlyWeighted;
    var trimmed := TrimSpace(s);
    if trimmed == "" {
      return Err(EmptyMix);
    }
    var texts := Split(trimmed, ',');
    var mix: seq<Entry> := [];
    var seen: set<Shape> := {};
    var weightedCount := 0;
    ghost var tokens: seq<Token> := [];
    NoTokens();
    for i := 0 to |texts|
      invariant ParseUpTo(texts, i) == Ok(tokens)
      invariant mix == Entries(tokens) && seen == ShapesOf(tokens)
      invariant weightedCount == SumBy(tokens, One(IsWeighted()))
    {
      var token := ReadToken(texts[i], seen);
      match token
      case Err(e) =>
        FailureSticks(texts, i + 1, |texts|);
        return Err(e);
      case Ok(t) =>
        TokenAppended(tokens, t);
        seen := seen + {t.entry.shape};
        if t.weighted {
          weightedCount := weightedCount + 1;
        }
        mix := mix + [t.entry];
        tokens := tokens + [t];
    }
    MixedCount(tokens);
    if weightedCount != 0 && weightedCount != |mix| {
      return Err(MixedWeighting);
    }
    return Ok(mix);
  }

  // ----- the grammar, as a declaration

  // A token is a known shape's name, alone or followed by a colon and a
  // non-negative weight as Atoi reads it.
  ghost predicate TokenDenotes(text: string, t: Token) {
    && t.entry.shape != Unspecified
    && if t.weighted then
         exists ws: string ::
           text == FlagName(t.entry.shape) + [':'] + ws && Atoi(ws) == Some(t.entry.weight) && t.entry.weight >= 0
       else
         text == FlagName(t.entry.shape) && t.entry.weight == 1
  }

  ghost predicate DistinctShapes(mix: seq<Entry>) {
    forall i, j :: 0 <= i < j < |mix| ==> mix[i].shape != mix[j].shape
  }

  ghost predicate AllDenote(texts: seq<string>, tokens: seq<Token>) {
    && |texts| == |tokens|
    && (forall i :: 0 <= i < |texts| ==> TokenDenotes(texts[i], tokens[i]))
    && DistinctShapes(Entries(tokens))
  }

  // s, trimmed, spells the mix.
  ghost predicate Denotes(s: string, mix: seq<Entry>) {
    exists texts, tokens :: Spells(s, texts, tokens) && mix == Entries(tokens)
  }

  ghost predicate Spells(s: string, texts: seq<string>, tokens: seq<Token>) {
    && texts != [] && TrimSpace(s) == Join(texts, ',')
    && AllDenote(texts, tokens) && UniformlyWeighted(tokens)
  }

  lemma NamedBack(shape: Shape)
    requires shape != Unspecified
    ensures ShapeNamed(FlagName(shape)) == Some(shape)
  {
  }

  // A name that splits and trims as it stands.
  predicate Clean(name: string) {
    && name != "" && ',' !in name && ':' !in name
    && !IsSpace(name[0]) && !IsSpace(name[|name| - 1])
  }

  lemma ShortNamesClean()
    ensures Clean("string") && Clean("bytes") && Clean("mixed")
  {
    assert "string" == ['s', 't', 'r', 'i', 'n', 'g'];
    assert "bytes" == ['b', 'y', 't', 'e', 's'];
    assert "mixed" == ['m', 'i', 'x', 'e', 'd'];
  }

  lemma LongNamesClean()
    ensures Clean("embedding-float") && Clean("embedding-bytes")
  {
    assert "embedding-float" == ['e', 'm', 'b', 'e', 'd', 'd', 'i', 'n', 'g', '-', 'f', 'l', 'o', 'a', 't'];
    assert "embedding-bytes" == ['e', 'm', 'b', 'e', 'd', 'd', 'i', 'n', 'g', '-', 'b', 'y', 't', 'e', 's'];
  }

  lemma NamesAreClean(shape: Shape)
    requires shape != Unspecified
    ensures var name := FlagName(shape);
            && name != "" && ',' !in name && ':' !in name
            && !IsSpace(name[0]) && !IsSpace(name[|name| - 1])
            && ShapeNamed(name) == Some(shape)
  {
    NamedBack(shape);
    ShortNamesClean();
    LongNamesClean();
    hide ShapeNamed;
    assert Clean(FlagName(shape));
  }

  lemma SplitTwo(a: string, b: string, sep: char)
    requires sep !in a && sep !in b
    ensures Split(a + [sep] + b, sep) == [a, b]
  {
    SplitFirst(a, b, sep);
    SplitWhole(b, sep);
  }

  // The token parser accepts exactly the tokens of the grammar whose shape is new.
  lemma ParseTokenIff(text: string, seen: set<Shape>, t: Token)
    ensures ParseToken(text, seen) == Ok(t) <==> TokenDenotes(text, t) && t.entry.shape !in seen
  {
    hide ParseToken, TokenDenotes;
    if TokenDenotes(text, t) { DenotedTokenParses(text, seen, t); }
    if ParseToken(text, seen) == Ok(t) { ParsedTokenDenotes(text, seen, t); }
  }

  lemma DenotedTokenParses(text: string, seen: set<Shape>, t: Token)
    requires TokenDenotes(text, t)
    ensures ParseToken(text, seen) == if t.entry.shape in seen then Err(DuplicateShape) else Ok(t)
  {
    hide FlagName, ShapeNamed;
    NamesAreClean(t.entry.shape);
    if t.weighted {
      var ws :| text == FlagName(t.entry.shape) + [':'] + ws && Atoi(ws) == Some(t.entry.weight);
      SplitTwo(FlagName(t.entry.shape), ws, ':');
    } else {
      SplitWhole(text, ':');
    }
  }

  lemma ParsedTokenDenotes(text: string, seen: set<Shape>, t: Token)
    requires ParseToken(text, seen) == Ok(t)
    ensures TokenDenotes(text, t) && t.entry.shape !in seen
  {
    hide Atoi, Split;
    var parts := Split(text, ':');
    JoinSplit(text, ':');
    assert FlagName(t.entry.shape) == parts[0];
    if |parts| == 2 {
      assert parts == [parts[0]] + [parts[1]] && parts[1..] == [parts[1]];
      assert text == FlagName(t.entry.shape) + [':'] + parts[1];
    } else {
      assert text == parts[0];
    }
  }

  lemma DistinctAppend(tokens: seq<Token>, t: Token)
    ensures DistinctShapes(Entries(tokens + [t])) <==>
            DistinctShapes(Entries(tokens)) && t.entry.shape !in ShapesOf(tokens)
  {
    ApplyAppend(tokens, t, EntryOf());
    var mix := Entries(tokens + [t]);
    assert forall i :: 0 <= i < |tokens| ==> mix[i] == tokens[i].entry && tokens[i] in tokens;
  }

  lemma ParseOneMore(texts: seq<string>, k: nat, front: seq<Token>, last: Token)
    requires 0 < k <= |texts| && |front| == k - 1
    ensures ParseUpTo(texts, k) == Ok(front + [last]) <==>
            ParseUpTo(texts, k - 1) == Ok(front) && ParseToken(texts[k - 1], ShapesOf(front)) == Ok(last)
  {
    hide ParseToken, ShapesOf;
    var before := ParseUpTo(texts, k - 1);
    if before.Ok? && ParseToken(texts[k - 1], ShapesOf(before.value)).Ok? {
      var t := ParseToken(texts[k - 1], ShapesOf(before.value)).value;
      if before.value + [t] == front + [last] {
        assert before.value == (front + [last])[..k - 1] == front;
        assert (before.value + [t])[k - 1] == (front + [last])[k - 1];
      }
    }
  }

  lemma {:induction false} ParseUpToIff(texts: seq<string>, k: nat, tokens: seq<Token>)
    requires k <= |texts|
    ensures ParseUpTo(texts, k) == Ok(tokens) <==> AllDenote(texts[..k], tokens)
  {
    if k > 0 && |tokens| == k {
      hide ParseToken, TokenDenotes, AllDenote, ParseUpTo, ShapesOf;
      var front, last := tokens[..k - 1], tokens[k - 1];
      assert tokens == front + [last];
      ParseOneMore(texts, k, front, last);
      ParseUpToIff(texts, k - 1, front);
      ParseTokenIff(texts[k - 1], ShapesOf(front), last);
      AllDenoteAppend(texts[..k - 1], texts[k - 1], front, last);
      assert texts[..k - 1] + [texts[k - 1]] == texts[..k];
    }
  }

  lemma AllDenoteAppend(texts: seq<string>, text: string, tokens: seq<Token>, t: Token)
    requires |texts| == |tokens|
    ensures AllDenote(texts + [text], tokens + [t]) <==>
            AllDenote(texts, tokens) && TokenDenotes(text, t) && t.entry.shape !in ShapesOf(tokens)
  {
    hide TokenDenotes, DistinctShapes, Entries, ShapesOf;
    DistinctAppend(tokens, t);
    var ts, ks := texts + [text], tokens + [t];
    assert ts[|texts|] == text && ks[|texts|] == t;
    assert forall i :: 0 <= i < |texts| ==> ts[i] == texts[i] && ks[i] == tokens[i];
    if AllDenote(ts, ks) {
      forall i | 0 <= i < |texts| ensures TokenDenotes(texts[i], tokens[i]) {
        assert TokenDenotes(ts[i], ks[i]);
      }
    }
  }

  lemma TokensHaveNoComma(text: string, t: Token)
    requires TokenDenotes(text, t)
    ensures text != "" && ',' !in text
  {
    NamesAreClean(t.entry.shape);
  }

  lemma ParsedIsDenoted(s: string, mix: seq<Entry>)
    requires Parse(s) == Ok(mix)
    ensures Denotes(s, mix)
  {
    hide ParseUpTo, AllDenote, TrimSpace, UniformlyWeighted, Entries, Split, Join;
    var trimmed := TrimSpace(s);
    var texts := Split(trimmed, ',');
    var tokens := ParseUpTo(texts, |texts|).value;
    ParseUpToIff(texts, |texts|, tokens);
    assert texts[..|texts|] == texts;
    JoinSplit(trimmed, ',');
    assert Spells(s, texts, tokens);
  }

  lemma DenotedParses(s: string, mix: seq<Entry>)
    requires Denotes(s, mix)
    ensures Parse(s) == Ok(mix)
  {
    hide ParseUpTo, AllDenote, TrimSpace, UniformlyWeighted, Entries, Split, Join;
    var texts, tokens :| Spells(s, texts, tokens) && mix == Entries(tokens);
    DenotedTextsClean(texts, tokens);
    SplitJoin(texts, ',');
    JoinOfTexts(texts);
    ParseUpToIff(texts, |texts|, tokens);
    assert texts[..|texts|] == texts;
  }

  lemma DenotedTextsClean(texts: seq<string>, tokens: seq<Token>)
    requires AllDenote(texts, tokens)
    ensures forall p :: p in texts ==> p != "" && ',' !in p
  {
    hide TokenDenotes;
    forall p | p in texts ensures p != "" && ',' !in p {
      var i :| 0 <= i < |texts| && texts[i] == p;
      TokensHaveNoComma(texts[i], tokens[i]);
    }
  }

  lemma JoinOfTexts(texts: seq<string>)
    requires texts != [] && forall p :: p in texts ==> p != ""
    ensures Join(texts, ',') != ""
  {
    assert texts[0] in texts;
  }

  // Soundness and completeness: the parser returns a mix exactly when the
  // trimmed text spells it.
  lemma ParseOkIff(s: string, mix: seq<Entry>)
    ensures Parse(s) == Ok(mix) <==> Denotes(s, mix)
  {
    hide Parse, Denotes;
    if Parse(s) == Ok(mix) { ParsedIsDenoted(s, mix); }
    if Denotes(s, mix) { DenotedParses(s, mix); }
  }

  // text is a name without a colon, followed by a colon and one more part
  // without a colon, or by nothing.
  ghost predicate HasForm(text: string, name: string, weight: Option<string>) {
    && ':' !in name
    && match weight
       case None => text == name
       case Some(ws) => ':' !in ws && text == name + [':'] + ws
  }

  ghost predicate TwoColons(text: string) {
    exists i, j :: 0 <= i < j < |text| && text[i] == text[j] == ':'
  }

  ghost predicate Names(name: string, shape: Shape) {
    shape != Unspecified && name == FlagName(shape)
  }

  // What is wrong with a token after tokens of the shapes seen: its form, else
  // its name, else its shape, else its weight.
  ghost predicate TokenFails(text: string, seen: set<Shape>, e: ParseError) {
    match e
    case MalformedToken => text == "" || text[0] == ':' || TwoColons(text)
    case UnknownShape => exists name, ws :: HasForm(text, name, ws) && name != "" && forall shape :: !Names(name, shape)
    case DuplicateShape => exists name, ws, shape :: HasForm(text, name, ws) && Names(name, shape) && shape in seen
    case InvalidWeight =>
      exists name, ws, shape ::
        && HasForm(text, name, Some(ws)) && Names(name, shape) && shape !in seen
        && (Atoi(ws).None? || Atoi(ws).value < 0)
    case _ => false
  }

  // The form of a token by its parts.
  lemma FormIsSplit(text: string, name: string, weight: Option<string>)
    ensures HasForm(text, name, weight) <==>
            Split(text, ':') == [name] + (if weight.Some? then [weight.value] else [])
  {
    var parts := Split(text, ':');
    JoinSplit(text, ':');
    if HasForm(text, name, weight) {
      if weight.Some? { SplitTwo(name, weight.value, ':'); } else { SplitWhole(name, ':'); }
    }
    if weight.Some? && parts == [name] + [weight.value] {
      assert parts[0] in parts && parts[1] in parts && parts[1..] == [weight.value];
    }
    if weight.None? && parts == [name] + [] {
      assert parts == [name] && parts[0] in parts;
    }
  }

  lemma {:induction false} TwoColonsIff(text: string)
    ensures TwoColons(text) <==> |Split(text, ':')| > 2
    ensures ':' in text <==> |Split(text, ':')| > 1
  {
    if text != "" {
      var rest := text[1..];
      TwoColonsIff(rest);
      assert text == [text[0]] + rest;
      if TwoColons(rest) {
        var i, j :| 0 <= i < j < |rest| && rest[i] == rest[j] == ':';
        assert text[i + 1] == text[j + 1] == ':';
      }
      if text[0] == ':' && ':' in rest {
        var j :| 0 <= j < |rest| && rest[j] == ':';
        assert text[0] == text[j + 1] == ':';
      }
    }
  }

  lemma EmptyNameIff(text: string)
    ensures Split(text, ':')[0] == "" <==> text == "" || text[0] == ':'
  {
  }

  lemma NamesIff(name: string, shape: Shape)
    ensures Names(name, shape) <==> ShapeNamed(name) == Some(shape)
  {
    if shape != Unspecified { NamesAreClean(shape); }
  }

  // A token of this form has this name and this weight, and no other.
  lemma FormDetermined(text: string, name: string, weight: Option<string>)
    requires HasForm(text, name, weight)
    ensures var parts := Split(text, ':');
            && parts[0] == name
            && (weight.None? ==> |parts| == 1) && (weight.Some? ==> |parts| == 2 && parts[1] == weight.value)
  {
    hide HasForm, Split;
    FormIsSplit(text, name, weight);
  }

  // A token of at most one colon has the form of its parts.
  lemma FormOfParts(text: string) returns (weight: Option<string>)
    requires |Split(text, ':')| <= 2
    ensures HasForm(text, Split(text, ':')[0], weight)
    ensures weight == if |Split(text, ':')| == 2 then Some(Split(text, ':')[1]) else None
  {
    hide HasForm, Split;
    var parts := Split(text, ':');
    weight := if |parts| == 2 then Some(parts[1]) else None;
    assert parts == [parts[0]] + (if weight.Some? then [weight.value] else []);
    FormIsSplit(text, parts[0], weight);
  }

  // The token parser fails with exactly the error that describes the token.
  lemma TokenFailsIff(text: string, seen: set<Shape>, e: ParseError)
    ensures ParseToken(text, seen) == Err(e) <==> TokenFails(text, seen, e)
  {
    hide ParseToken, TokenFails;
    if ParseToken(text, seen) == Err(e) { FailureDescribed(text, seen, e); }
    if TokenFails(text, seen, e) { DescribedFailure(text, seen, e); }
  }

  lemma FailureDescribed(text: string, seen: set<Shape>, e: ParseError)
    requires ParseToken(text, seen) == Err(e)
    ensures TokenFails(text, seen, e)
  {
    hide ShapeNamed, Names, Atoi, Split, HasForm, TwoColons;
    TwoColonsIff(text);
    EmptyNameIff(text);
    AtoiOfNothing();
    var parts := Split(text, ':');
    if e != MalformedToken {
      var weight := FormOfParts(text);
      forall shape ensures Names(parts[0], shape) <==> ShapeNamed(parts[0]) == Some(shape) {
        NamesIff(parts[0], shape);
      }
      if ShapeNamed(parts[0]).Some? { assert Names(parts[0], ShapeNamed(parts[0]).value); }
    }
  }

  lemma DescribedFailure(text: string, seen: set<Shape>, e: ParseError)
    requires TokenFails(text, seen, e)
    ensures ParseToken(text, seen) == Err(e)
  {
    hide ShapeNamed, Names, Atoi, Split, HasForm, TwoColons;
    TwoColonsIff(text);
    EmptyNameIff(text);
    match e
    case MalformedToken =>
    case UnknownShape =>
      var name, ws :| HasForm(text, name, ws) && name != "" && forall shape :: !Names(name, shape);
      FormDetermined(text, name, ws);
      if ShapeNamed(name).Some? { NamesIff(name, ShapeNamed(name).value); }
    case DuplicateShape =>
      var name, ws, shape :| HasForm(text, name, ws) && Names(name, shape) && shape in seen;
      FormDetermined(text, name, ws);
      NamesIff(name, shape);
      NameNotEmpty(name, shape);
    case InvalidWeight =>
      var name, ws, shape :|
        && HasForm(text, name, Some(ws)) && Names(name, shape) && shape !in seen
        && (Atoi(ws).None? || Atoi(ws).value < 0);
      FormDetermined(text, name, Some(ws));
      NamesIff(name, shape);
      NameNotEmpty(name, shape);
  }

  lemma NameNotEmpty(name: string, shape: Shape)
    requires Names(name, shape)
    ensures name != ""
  {
    NamesAreClean(shape);
  }

  lemma AtoiOfNothing()
    ensures Atoi("") == None
  {
  }

  // Which error is reported: the empty mix, else the leftmost token that does
  // not continue an acceptable prefix, else mixed weighting, checked last.
  ghost predicate FirstFailure(texts: seq<string>, i: nat, e: ParseError) {
    i < |texts| && exists tokens :: AllDenote(texts[..i], tokens) && TokenFails(texts[i], ShapesOf(tokens), e)
  }

  lemma FirstFailureIff(texts: seq<string>, i: nat, e: ParseError)
    ensures FirstFailure(texts, i, e) <==>
            i < |texts| && ParseUpTo(texts, i).Ok? && ParseUpTo(texts, i + 1) == Err(e)
  {
    hide AllDenote, TokenFails, ParseToken;
    if FirstFailure(texts, i, e) {
      var tokens :| AllDenote(texts[..i], tokens) && TokenFails(texts[i], ShapesOf(tokens), e);
      ParseUpToIff(texts, i, tokens);
      TokenFailsIff(texts[i], ShapesOf(tokens), e);
    }
    if i < |texts| && ParseUpTo(texts, i).Ok? {
      ParseUpToIff(texts, i, ParseUpTo(texts, i).value);
      TokenFailsIff(texts[i], ShapesOf(ParseUpTo(texts, i).value), e);
    }
  }

  // A run over k tokens that fails fails first at some token.
  lemma {:induction false} FailsSomewhere(texts: seq<string>, k: nat) returns (i: nat)
    requires k <= |texts| && ParseUpTo(texts, k).Err?
    ensures i < k && FirstFailure(texts, i, ParseUpTo(texts, k).error)
  {
    hide FirstFailure, ParseToken, ShapesOf;
    if ParseUpTo(texts, k - 1).Err? {
      i := FailsSomewhere(texts, k - 1);
    } else {
      i := k - 1;
      FirstFailureIff(texts, i, ParseUpTo(texts, k).error);
    }
  }

  ghost predicate FailsAtAToken(texts: seq<string>, e: ParseError) {
    exists i: nat :: FirstFailure(texts, i, e)
  }

  ghost predicate OnlyWeightingFails(texts: seq<string>) {
    exists tokens :: AllDenote(texts, tokens) && !UniformlyWeighted(tokens)
  }

  lemma ParseErrIff(s: string, e: ParseError)
    ensures var trimmed := TrimSpace(s); var texts := Split(trimmed, ',');
            Parse(s) == Err(e) <==>
            if trimmed == "" then e == EmptyMix
            else FailsAtAToken(texts, e) || (e == MixedWeighting && OnlyWeightingFails(texts))
  {
    var texts := Split(TrimSpace(s), ',');
    TokenFailureIff(texts, e);
    WeightingFailureIff(texts);
  }

  lemma TokenFailureIff(texts: seq<string>, e: ParseError)
    ensures FailsAtAToken(texts, e) <==> ParseUpTo(texts, |texts|) == Err(e)
  {
    hide ParseToken, AllDenote, FirstFailure, ParseUpTo;
    if FailsAtAToken(texts, e) {
      var i: nat :| FirstFailure(texts, i, e);
      FirstFailureIff(texts, i, e);
      FailureSticks(texts, i + 1, |texts|);
    }
    if ParseUpTo(texts, |texts|) == Err(e) {
      var i := FailsSomewhere(texts, |texts|);
    }
  }

  lemma WeightingFailureIff(texts: seq<string>)
    ensures var all := ParseUpTo(texts, |texts|);
            OnlyWeightingFails(texts) <==> all.Ok? && !UniformlyWeighted(all.value)
  {
    var all := ParseUpTo(texts, |texts|);
    assert texts[..|texts|] == texts;
    if OnlyWeightingFails(texts) {
      var tokens :| AllDenote(texts, tokens) && !UniformlyWeighted(tokens);
      ParseUpToIff(texts, |texts|, tokens);
    }
    if all.Ok? {
      ParseUpToIff(texts, |texts|, all.value);
    }
  }

  // ----- the printer and the round trip

  function EntryText(): Entry -> string {
    (e: Entry) => EntryString(e)
  }

  function EntryString(e: Entry): string {
    FlagName(e.shape) + [':'] + Decimal(e.weight)
  }

  function MixText(mix: seq<Entry>): string {
    if mix == [] then ""
    else if |mix| == 1 && mix[0].weight == 1 then FlagName(mix[0].shape)
    else Join(Apply(mix, EntryText()), ',')
  }

  // The flag value: Set overwrites the mix, and only on success.
  class MixFlag {
    var mix: seq<Entry>

    constructor (mix: seq<Entry>)
      ensures this.mix == mix
    {
      this.mix := mix;
    }

    method String() returns (s: string)
      ensures s == MixText(mix)
    {
      if |mix| == 0 {
        return "";
      }
      if |mix| == 1 && mix[0].weight == 1 {
        return FlagName(mix[0].shape);
      }
      var parts := EntryStrings();
      return Join(parts, ',');
    }

    method EntryStrings() returns (parts: seq<string>)
      ensures parts == Apply(mix, EntryText())
    {
      hide EntryString;
      parts := [];
      for i := 0 to |mix|
        invariant parts == Apply(mix[..i], EntryText())
      {
        assert mix[..i + 1] == mix[..i] + [mix[i]];
        ApplyAppend(mix[..i], mix[i], EntryText());
        parts := parts + [EntryString(mix[i])];
      }
      assert mix[..|mix|] == mix;
    }

    method Set(s: string) returns (err: Option<ParseError>)
      modifies this
      ensures match Parse(s)
              case Ok(parsed) => err == None && mix == parsed
              case Err(e) => err == Some(e) && mix == old(mix)
    {
      var parsed := ParsePayloadMix(s);
      match parsed
      case Err(e) => return Some(e);
      case Ok(m) =>
        mix := m;
        return None;
    }
  }

  // The mixes the parser can produce.
  ghost predicate WellFormed(mix: seq<Entry>) {
    && mix != [] && DistinctShapes(mix)
    && forall e :: e in mix ==> e.shape != Unspecified && 0 <= e.weight <= MAX
  }

  function WeightedToken(): Entry -> Token {
    (e: Entry) => Token(e, true)
  }

  lemma {:induction false} JoinEnds(parts: seq<string>, sep: char)
    requires parts != [] && forall i :: 0 <= i < |parts| ==> parts[i] != ""
    ensures var s := Join(parts, sep); var last := parts[|parts| - 1];
            s != "" && s[0] == parts[0][0] && s[|s| - 1] == last[|last| - 1]
  {
    if |parts| > 1 {
      JoinEnds(parts[1..], sep);
    }
  }

  lemma EntryTextDenotes(e: Entry)
    requires e.shape != Unspecified && 0 <= e.weight <= MAX
    ensures var s := EntryString(e);
            s != "" && !IsSpace(s[0]) && !IsSpace(s[|s| - 1]) && TokenDenotes(s, Token(e, true))
  {
    NamesAreClean(e.shape);
    DecimalRoundTrip(e.weight);
    var s, d := EntryString(e), Decimal(e.weight);
    assert d[|d| - 1] in d;
  }

  lemma PrintedNameDenotes(mix: seq<Entry>)
    requires WellFormed(mix) && |mix| == 1 && mix[0].weight == 1
    ensures Denotes(FlagName(mix[0].shape), mix)
  {
    hide FlagName, IsSpace, TrimSpace;
    var s := FlagName(mix[0].shape);
    assert mix[0] in mix;
    NamesAreClean(mix[0].shape);
    TrimKeeps(s);
    var texts, tokens := [s], [Token(mix[0], false)];
    assert Spells(s, texts, tokens) && mix == Entries(tokens);
  }

  lemma PrintedMixDenotes(mix: seq<Entry>)
    requires WellFormed(mix)
    ensures Denotes(MixText(mix), mix)
  {
    if |mix| == 1 && mix[0].weight == 1 {
      PrintedNameDenotes(mix);
    } else {
      PrintedEntriesDenote(mix);
    }
  }

  lemma PrintedEntriesDenote(mix: seq<Entry>)
    requires WellFormed(mix)
    ensures Denotes(Join(Apply(mix, EntryText()), ','), mix)
  {
    hide EntryString, TokenDenotes, IsSpace, TrimSpace;
    var texts, tokens := Apply(mix, EntryText()), Apply(mix, WeightedToken());
    var s := Join(texts, ',');
    forall i | 0 <= i < |mix|
      ensures texts[i] != "" && !IsSpace(texts[i][0]) && !IsSpace(texts[i][|texts[i]| - 1])
      ensures TokenDenotes(texts[i], tokens[i])
    {
      assert mix[i] in mix;
      EntryTextDenotes(mix[i]);
    }
    JoinEnds(texts, ',');
    TrimKeeps(s);
    assert mix == Entries(tokens);
    assert Spells(s, texts, tokens);
  }

  // The weight as a number without a sign or leading zeros.
  ghost predicate PrintsWeight(digits: string, weight: int) {
    && digits != "" && (forall c :: c in digits ==> '0' <= c <= '9')
    && (digits == "0" || digits[0] != '0') && Reads(digits, weight)
  }

  // The name, a colon and the weight.
  ghost predicate PrintsEntry(text: string, e: Entry) {
    exists digits: string :: HasForm(text, FlagName(e.shape), Some(digits)) && PrintsWeight(digits, e.weight)
  }

  lemma EntryPrinted(e: Entry)
    requires e.shape != Unspecified && 0 <= e.weight <= MAX
    ensures PrintsEntry(EntryString(e), e) && ',' !in EntryString(e) && ':' in EntryString(e)
  {
    NamesAreClean(e.shape);
    var digits := Decimal(e.weight);
    DecimalRoundTrip(e.weight);
    AtoiIff(digits, e.weight);
    DigitsArePlain(e.weight);
    assert HasForm(EntryString(e), FlagName(e.shape), Some(digits));
    assert PrintsWeight(digits, e.weight);
    assert EntryString(e)[|FlagName(e.shape)|] == ':';
  }

  // What a mix is printed as: nothing when it is empty, the bare name for one
  // entry of weight one, and else, between commas, the name, a colon and the
  // weight of each entry in order.
  lemma PrintedForm(mix: seq<Entry>)
    requires mix != [] ==> WellFormed(mix)
    ensures mix == [] ==> MixText(mix) == ""
    ensures ':' !in MixText(mix) <==> mix == [] || (|mix| == 1 && mix[0].weight == 1)
    ensures |mix| == 1 && mix[0].weight == 1 ==> MixText(mix) == FlagName(mix[0].shape)
    ensures mix != [] && !(|mix| == 1 && mix[0].weight == 1) ==>
              var tokens := Split(MixText(mix), ',');
              |tokens| == |mix| && forall i :: 0 <= i < |mix| ==> PrintsEntry(tokens[i], mix[i])
  {
    if |mix| == 1 && mix[0].weight == 1 {
      assert mix[0] in mix;
      NamesAreClean(mix[0].shape);
    } else if mix != [] {
      EntriesPrinted(mix);
    }
  }

  lemma EntriesPrinted(mix: seq<Entry>)
    requires WellFormed(mix)
    ensures var s := Join(Apply(mix, EntryText()), ','); var tokens := Split(s, ',');
            ':' in s && |tokens| == |mix| && forall i :: 0 <= i < |mix| ==> PrintsEntry(tokens[i], mix[i])
  {
    hide EntryString, PrintsEntry, Split, DistinctShapes;
    var parts := Apply(mix, EntryText());
    forall i | 0 <= i < |mix|
      ensures PrintsEntry(parts[i], mix[i]) && ',' !in parts[i] && ':' in parts[i]
    {
      assert mix[i] in mix;
      EntryPrinted(mix[i]);
    }
    SplitJoin(parts, ',');
    assert ':' in parts[0];
  }

  lemma DenotedMixWellFormed(s: string, mix: seq<Entry>)
    requires Denotes(s, mix)
    ensures WellFormed(mix)
  {
    var texts, tokens :| Spells(s, texts, tokens) && mix == Entries(tokens);
    forall i | 0 <= i < |mix| ensures mix[i].shape != Unspecified && 0 <= mix[i].weight <= MAX {
      assert TokenDenotes(texts[i], tokens[i]);
    }
  }

  // Printing and parsing returns the mix, in order, exactly for the mixes of
  // distinct known shapes with weights in 0..MaxInt.
  lemma RoundTripIff(mix: seq<Entry>)
    ensures Parse(MixText(mix)) == Ok(mix) <==> WellFormed(mix)
  {
    ParseOkIff(MixText(mix), mix);
    if WellFormed(mix) { PrintedMixDenotes(mix); }
    if Denotes(MixText(mix), mix) { DenotedMixWellFormed(MixText(mix), mix); }
  }

  // Whatever the flag was spelled like, what it prints as parses to the same mix.
  lemma ReparsePrinted(s: string)
    requires Parse(s).Ok?
    ensures Parse(MixText(Parse(s).value)) == Parse(s)
    ensures |Parse(s).value| <= 5
  {
    var mix := Parse(s).value;
    ParseOkIff(s, mix);
    DenotedMixWellFormed(s, mix);
    RoundTripIff(mix);
    AtMostFive(mix);
  }

  lemma AtMostFive(mix: seq<Entry>)
    requires WellFormed(mix)
    ensures |mix| <= 5
  {
    var known := {Str, Bytes, EmbeddingFloat, EmbeddingBytes, Mixed};
    ShapesCounted(mix, known);
  }

  lemma {:induction false} ShapesCounted(mix: seq<Entry>, room: set<Shape>)
    requires DistinctShapes(mix) && forall e :: e in mix ==> e.shape in room
    ensures |mix| <= |room|
  {
    if mix != [] {
      assert mix[0] in mix;
      forall e | e in mix[1..] ensures e.shape in room - {mix[0].shape} {
        var i :| 0 <= i < |mix[1..]| && mix[1..][i] == e;
        assert mix[i + 1] == e;
      }
      ShapesCounted(mix[1..], room - {mix[0].shape});
    }
  }
}
