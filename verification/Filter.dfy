/**
 The filter expression parser (internal/query/filter.go) and the printer of spam
 filter criteria (formatCriterion in internal/spamfilters/list.go).

 Strings are sequences of Unicode characters.
 */
module Filter {
  import opened Text
  import opened Wrappers

  datatype Operator =
    | Is | IsNot | Contains | DoesNotContain | StartsWith | DoesNotStartWith | EndsWith | DoesNotEndWith
    | Matches | DoesNotMatch | Gt | Gte | Lt | Lte | IsSet | IsNotSet | IsOneOf | IsNotOneOf | IsAny

  // The value union of the API client; only strings can be printed or parsed.
  datatype FilterValue = StringValue(text: string) | OtherValue

  datatype AttributeFilter = AttributeFilter(
    key: string, operator: Operator, value: Option<FilterValue>, values: Option<seq<FilterValue>>)

  datatype FilterError =
    | EmptyExpression
    | UnclosedQuoteInKey
    | EmptyKey
    | NothingAfterKey
    | ValueNotAccepted(operator: Operator)
    | ValueRequired(operator: Operator)
    | UnclosedQuoteInValue

  // ----- Operators -----

  function Name(op: Operator): string {
    match op
    case Is => "is"
    case IsNot => "is_not"
    case Contains => "contains"
    case DoesNotContain => "does_not_contain"
    case StartsWith => "starts_with"
    case DoesNotStartWith => "does_not_start_with"
    case EndsWith => "ends_with"
    case DoesNotEndWith => "does_not_end_with"
    case Matches => "matches"
    case DoesNotMatch => "does_not_match"
    case Gt => "gt"
    case Gte => "gte"
    case Lt => "lt"
    case Lte => "lte"
    case IsSet => "is_set"
    case IsNotSet => "is_not_set"
    case IsOneOf => "is_one_of"
    case IsNotOneOf => "is_not_one_of"
    case IsAny => "is_any"
  }

  function NamedOperator(token: string): Option<Operator> {
    if token == "is" then Some(Is)
    else if token == "is_not" then Some(IsNot)
    else if token == "contains" then Some(Contains)
    else if token == "does_not_contain" then Some(DoesNotContain)
    else if token == "starts_with" then Some(StartsWith)
    else if token == "does_not_start_with" then Some(DoesNotStartWith)
    else if token == "ends_with" then Some(EndsWith)
    else if token == "does_not_end_with" then Some(DoesNotEndWith)
    else if token == "matches" then Some(Matches)
    else if token == "does_not_match" then Some(DoesNotMatch)
    else if token == "gt" then Some(Gt)
    else if token == "gte" then Some(Gte)
    else if token == "lt" then Some(Lt)
    else if token == "lte" then Some(Lte)
    else if token == "is_set" then Some(IsSet)
    else if token == "is_not_set" then Some(IsNotSet)
    else if token == "is_one_of" then Some(IsOneOf)
    else if token == "is_not_one_of" then Some(IsNotOneOf)
    else if token == "is_any" then Some(IsAny)
    else None
  }

  function SymbolOperator(token: string): Option<Operator> {
    if token == "=" then Some(Is)
    else if token == "!=" then Some(IsNot)
    else if token == ">" then Some(Gt)
    else if token == ">=" then Some(Gte)
    else if token == "<" then Some(Lt)
    else if token == "<=" then Some(Lte)
    else if token == "~" then Some(Matches)
    else if token == "!~" then Some(DoesNotMatch)
    else None
  }

  function KnownOperator(token: string): Option<Operator> {
    if NamedOperator(token).Some? then NamedOperator(token) else SymbolOperator(token)
  }

  predicate TakesNoValue(op: Operator) {
    op.IsSet? || op.IsNotSet?
  }

  predicate TakesManyValues(op: Operator) {
    op.IsOneOf? || op.IsNotOneOf?
  }

  // ----- Tokens -----

  /** One token and the trimmed text behind it. */
  function NextQuotedToken(s: string): (r: Result<(string, string), FilterError>)
    requires s != ""
    ensures r.Ok? ==> |r.value.1| < |s| && |r.value.0| <= |s|
    // A quoted token holds no quote, an unquoted one does not begin with one.
    ensures r.Ok? ==> '\'' !in r.value.0 || r.value.0[0] != '\''
  {
    if s[0] == '\'' then
      var end := IndexOf(s[1..], '\'');
      if end == |s[1..]| then Err(UnclosedQuoteInValue)
      else Ok((s[1..end + 1], Trim(s[end + 2..])))
    else
      var cut := IndexOf(s, ' ');
      if cut < |s| then Ok((s[..cut], Trim(s[cut + 1..]))) else Ok((s, ""))
  }

  /** The tokens of a trimmed text. */
  function Tokens(s: string): (r: Result<seq<string>, FilterError>)
    ensures r.Ok? ==> forall i :: 0 <= i < |r.value| ==>
              && r.value[i] != "" && |r.value[i]| <= |s|
              && ('\'' !in r.value[i] || r.value[i][0] != '\'')
    decreases |s|
  {
    if s == "" then Ok([])
    else
      match NextQuotedToken(s)
      case Err(e) => Err(e)
      case Ok((token, rest)) =>
        match Tokens(rest)
        case Err(e) => Err(e)
        case Ok(more) => Ok(if token != "" then [token] + more else more)
  }

  /** splitQuotedTokens: the loop that collects the tokens. */
  method SplitQuotedTokens(text: string) returns (r: Result<seq<string>, FilterError>)
    ensures r == Tokens(Trim(text))
  {
    var tokens: seq<string> := [];
    var s := Trim(text);
    PrependNothing(Tokens(s));
    while |s| > 0
      invariant Tokens(Trim(text)) == Prepend(tokens, Tokens(s))
      decreases |s|
    {
      var next := NextQuotedToken(s);
      if next.Err? {
        return Err(next.error);
      }
      var (token, rest) := next.value;
      PrependTwice(tokens, if token != "" then [token] else [], Tokens(rest));
      if token != "" {
        tokens := tokens + [token];
      }
      s := rest;
    }
    assert tokens + [] == tokens;
    return Ok(tokens);
  }

  function Prepend(tokens: seq<string>, r: Result<seq<string>, FilterError>): Result<seq<string>, FilterError> {
    match r
    case Ok(more) => Ok(tokens + more)
    case Err(e) => Err(e)
  }

  lemma PrependNothing(r: Result<seq<string>, FilterError>)
    ensures Prepend([], r) == r
  {
    if r.Ok? {
      assert [] + r.value == r.value;
    }
  }

  lemma PrependTwice(a: seq<string>, b: seq<string>, r: Result<seq<string>, FilterError>)
    ensures Prepend(a, Prepend(b, r)) == Prepend(a + b, r)
  {
    if r.Ok? {
      assert a + (b + r.value) == a + b + r.value;
    }
  }

  // ----- The parser -----

  function ParseFilter(text: string): (r: Result<AttributeFilter, FilterError>)
    ensures r.Ok? ==> Trim(text) != "" && ParseFilterKey(Trim(text)).Ok?
                      && r.value.key == ParseFilterKey(Trim(text)).value.0
  {
    var s := Trim(text);
    if s == "" then Err(EmptyExpression)
    else
      match ParseFilterKey(s)
      case Err(e) => Err(e)
      case Ok((key, rest)) =>
        if rest == "" then Err(NothingAfterKey) else ParseFilterOperatorAndValue(key, rest)
  }

  function ParseFilterKey(s: string): (r: Result<(string, string), FilterError>)
    requires s != ""
    ensures r.Ok? ==> r.value.0 != ""
  {
    if s[0] == '\'' then
      var end := IndexOf(s[1..], '\'');
      if end == |s[1..]| then Err(UnclosedQuoteInKey)
      else if end == 0 then Err(EmptyKey)
      else Ok((s[1..end + 1], Trim(s[end + 2..])))
    else
      var cut := IndexOf(s, ' ');
      if cut == 0 then Err(EmptyKey)
      else if cut < |s| then Ok((s[..cut], Trim(s[cut + 1..])))
      else Ok((s, ""))
  }

  function ParseFilterOperatorAndValue(key: string, rest: string): (r: Result<AttributeFilter, FilterError>)
    ensures r.Ok? ==> r.value.key == key
  {
    var cut := IndexOf(rest, ' ');
    var firstToken := rest[..cut];
    var valueStr := if cut < |rest| then Trim(rest[cut + 1..]) else "";
    match KnownOperator(firstToken)
    case None => BuildFilter(key, Is, rest)
    case Some(op) => ApplyOperator(key, op, valueStr)
  }

  function ApplyOperator(key: string, op: Operator, valueStr: string): (r: Result<AttributeFilter, FilterError>)
    ensures r.Ok? ==> r.value.key == key
  {
    if TakesNoValue(op) then
      if valueStr != "" then Err(ValueNotAccepted(op)) else Ok(AttributeFilter(key, op, None, None))
    else if valueStr == "" then Err(ValueRequired(op))
    else if IsEmptyLiteral(valueStr) && op == Is then Ok(AttributeFilter(key, IsNotSet, None, None))
    else if IsEmptyLiteral(valueStr) && op == IsNot then Ok(AttributeFilter(key, IsSet, None, None))
    else BuildFilter(key, op, valueStr)
  }

  predicate IsEmptyLiteral(s: string) {
    s == "\"\"" || s == "''"
  }

  function BuildFilter(key: string, op: Operator, valueStr: string): (r: Result<AttributeFilter, FilterError>)
    ensures r.Ok? ==> r.value.key == key
  {
    if TakesManyValues(op) then
      match Tokens(Trim(valueStr))
      case Err(e) => Err(e)
      case Ok(tokens) => Ok(AttributeFilter(key, op, None, Some(StringValues(tokens))))
    else
      Ok(AttributeFilter(key, op, Some(StringValue(valueStr)), None))
  }

  function StringValues(tokens: seq<string>): seq<FilterValue> {
    seq(|tokens|, i requires 0 <= i < |tokens| => StringValue(tokens[i]))
  }

  // ----- The printer -----

  /** formatCriterion */
  function FormatCriterion(f: AttributeFilter): string {
    Printed(f.key, f.operator, ShownValue(f))
  }

  function Printed(key: string, op: Operator, shown: Option<string>): string {
    match shown
    case Some(v) => key + " " + (Name(op) + " " + v)
    case None => key + " " + Name(op)
  }

  function ShownValue(f: AttributeFilter): Option<string> {
    match f.values
    case Some(items) => if Texts(items) == [] then None else Some(Join(Texts(items)))
    case None =>
      match f.value
      case Some(StringValue(text)) => Some(text)
      case _ => None
  }

  /** The string values of a list; others are skipped. */
  function Texts(items: seq<FilterValue>): seq<string> {
    if items == [] then []
    else (if items[0].StringValue? then [items[0].text] else []) + Texts(items[1..])
  }

  /** strings.Join with " | " */
  function Join(texts: seq<string>): string {
    if texts == [] then ""
    else if |texts| == 1 then texts[0]
    else texts[0] + " | " + Join(texts[1..])
  }

  // ----- When a printed criterion parses back -----

  /** Keys that survive printing: no space inside, no leading quote or white space. */
  predicate PlainKey(key: string) {
    key != "" && ' ' !in key && !IsSpace(key[0]) && key[0] != '\''
  }

  predicate Trimmed(v: string) {
    v != "" && !IsSpace(v[0]) && !IsSpace(v[|v| - 1])
  }

  /** Exactly the filters that are printed so that parsing gives them back. */
  predicate Reparses(f: AttributeFilter) {
    && PlainKey(f.key)
    && if TakesNoValue(f.operator) then f.value.None? && f.values.None?
       else if TakesManyValues(f.operator) then
         && f.value.None? && f.values.Some? && |f.values.value| == 1
         && f.values.value[0].StringValue? && PlainToken(f.values.value[0].text)
       else
         && f.values.None? && f.value.Some? && f.value.value.StringValue?
         && var v := f.value.value.text;
            Trimmed(v) && !(IsEmptyLiteral(v) && (f.operator == Is || f.operator == IsNot))
  }

  /** Values that are one token as they stand. */
  predicate PlainToken(v: string) {
    Trimmed(v) && ' ' !in v && v[0] != '\''
  }

  /** A name the parser knows, made of one plain token. */
  predicate IsNameOf(name: string, op: Operator) {
    KnownOperator(name) == Some(op) && PlainToken(name) && '\'' !in name
  }

  lemma NameFacts(op: Operator)
    ensures IsNameOf(Name(op), op)
  {
    hide Name, KnownOperator, PlainToken;
    NameKnown(op);
    NameLetters(op);
    LettersArePlain(Name(op));
  }

  lemma LettersArePlain(name: string)
    requires name != "" && forall c :: c in name ==> 'a' <= c <= 'z' || c == '_'
    ensures PlainToken(name) && '\'' !in name
  {
    assert name[0] in name && name[|name| - 1] in name;
  }

  lemma NameKnown(op: Operator)
    ensures KnownOperator(Name(op)) == Some(op)
  {
    hide SymbolOperator;
  }

  lemma NameLetters(op: Operator)
    ensures Name(op) != "" && forall c :: c in Name(op) ==> 'a' <= c <= 'z' || c == '_'
  {
  }

  lemma TrimTrimmed(s: string)
    requires s == "" || Trimmed(s)
    ensures Trim(s) == s
  {
  }

  function Payload(name: string, shown: Option<string>): string {
    match shown
    case Some(v) => name + " " + v
    case None => name
  }

  // Trailing space goes, and the value behind it; the name stays.
  lemma TrimPayload(name: string, shown: Option<string>)
    requires PlainToken(name)
    ensures var value := if shown.Some? then Trim(shown.value) else "";
            var p := TrimRight(Payload(name, shown));
            && Trimmed(p) && p[0] == name[0]
            && (value == "" ==> p == name)
            && (value != "" ==> exists w :: p == name + [' '] + w && Trim(w) == value)
  {
    TrimTrimmed(name);
    if shown.Some? {
      var w := TrimTail(shown.value);
      assert name + " " + shown.value == name + ([' '] + shown.value);
      TrimRightConcat(name, [' '] + shown.value);
      assert name + ([' '] + w) == name + [' '] + w;
    }
  }

  // A value behind a space: either both vanish, or the trimmed value stays.
  lemma TrimTail(v: string) returns (w: string)
    ensures TrimRight([' '] + v) == if Trim(v) == "" then "" else [' '] + w
    ensures Trim(v) != "" ==> Trim(w) == Trim(v)
  {
    var t := TrimRight([' '] + v);
    TrimLeadingSpace(' ', v);
    TrimOfTrimRight([' '] + v);
    TrimEmpty([' '] + v);
    w := if t == "" then "" else t[1..];
    if t != "" {
      assert t == [' '] + w;
      TrimLeadingSpace(' ', w);
    }
  }

  lemma SplitPayload(key: string, name: string, op: Operator, p: string, value: string)
    requires IsNameOf(name, op)
    requires value == "" ==> p == name
    requires value != "" ==> exists w :: p == name + [' '] + w && Trim(w) == value
    ensures ParseFilterOperatorAndValue(key, p) == ApplyOperator(key, op, value)
  {
    hide KnownOperator, ApplyOperator;
    if value == "" {
      assert name[..|name|] == name;
    } else {
      var w :| p == name + [' '] + w && Trim(w) == value;
      IndexOfConcat(name, w, ' ');
      assert p[..|name|] == name && p[|name| + 1..] == w;
    }
  }

  lemma TrimPrinted(key: string, payload: string)
    requires PlainKey(key) && TrimRight(payload) != ""
    ensures Trim(key + " " + payload) == key + [' '] + TrimRight(payload)
  {
    TrimRightConcat(key + [' '], payload);
    assert (key + " " + payload)[0] == key[0];
  }

  lemma SplitKey(key: string, p: string)
    requires PlainKey(key) && Trimmed(p)
    ensures ParseFilterKey(key + [' '] + p) == Ok((key, p))
  {
    var s := key + [' '] + p;
    IndexOfConcat(key, p, ' ');
    assert s[0] == key[0] && s[..|key|] == key && s[|key| + 1..] == p;
    TrimTrimmed(p);
  }

  // With a plain key the parser finds key, operator and trimmed value again.
  lemma ParsePrinted(key: string, op: Operator, shown: Option<string>)
    requires PlainKey(key)
    ensures ParseFilter(Printed(key, op, shown)) ==
            ApplyOperator(key, op, if shown.Some? then Trim(shown.value) else "")
  {
    hide Name, KnownOperator, ParseFilterKey, ParseFilterOperatorAndValue, ApplyOperator, Trim, TrimRight, IsSpace;
    var name := Name(op);
    var p := TrimRight(Payload(name, shown));
    NameFacts(op);
    TrimPayload(name, shown);
    TrimPrinted(key, Payload(name, shown));
    SplitKey(key, p);
    SplitPayload(key, name, op, p, if shown.Some? then Trim(shown.value) else "");
  }

  // ----- Keys that do not survive -----

  // The parsed key either is plain or was quoted.
  lemma ParsedKey(s: string)
    requires Trimmed(s) && ParseFilterKey(s).Ok?
    ensures s[0] != '\'' ==> PlainKey(ParseFilterKey(s).value.0)
    ensures s[0] == '\'' ==> '\'' !in ParseFilterKey(s).value.0
  {
  }

  // The first visible character of a printed criterion is a quote only if the key holds one.
  lemma FirstVisible(key: string, op: Operator, shown: Option<string>)
    requires '\'' !in key
    ensures Trim(Printed(key, op, shown)) != "" ==> Trim(Printed(key, op, shown))[0] != '\''
  {
    hide Name, KnownOperator, Trim, IsSpace;
    NameFacts(op);
    var payload := Payload(Name(op), shown);
    assert Printed(key, op, shown) == key + ([' '] + payload);
    assert payload[0] == Name(op)[0];
    FirstVisibleBehind(key, payload);
  }

  lemma FirstVisibleBehind(key: string, payload: string)
    requires '\'' !in key && payload != "" && !IsSpace(payload[0]) && payload[0] != '\''
    ensures Trim(key + ([' '] + payload)) != "" ==> Trim(key + ([' '] + payload))[0] != '\''
  {
    TrimLeftConcat(key, [' '] + payload);
    assert ([' '] + payload)[1..] == payload;
    TrimLeftMembers(key);
  }

  lemma {:induction false} TrimLeftMembers(s: string)
    ensures forall c :: c in TrimLeft(s) ==> c in s
  {
    if s != "" && IsSpace(s[0]) {
      TrimLeftMembers(s[1..]);
    }
  }

  lemma OnlyPlainKeys(f: AttributeFilter)
    requires ParseFilter(FormatCriterion(f)).Ok? && ParseFilter(FormatCriterion(f)).value.key == f.key
    ensures PlainKey(f.key)
  {
    hide ParseFilter, ParseFilterKey;
    var s := Trim(FormatCriterion(f));
    ParsedKey(s);
    if s[0] == '\'' {
      FirstVisible(f.key, f.operator, ShownValue(f));
    }
  }

  // ----- Values that do not survive -----

  // A quoted or cut token of v is not v itself.
  lemma TokensOfToken(v: string)
    requires Trimmed(v)
    ensures Tokens(v) == Ok([v]) <==> PlainToken(v)
  {
    if PlainToken(v) {
      assert NextQuotedToken(v) == Ok((v, ""));
      assert Tokens("") == Ok([]) && [v] + [] == [v];
    } else if NextQuotedToken(v).Ok? {
      var (token, rest) := NextQuotedToken(v).value;
      assert token != v;
      assert Tokens(rest).Ok? && |Tokens(rest).value| == 1 && token == "" ==> Tokens(rest).value[0] != v;
      assert Tokens(rest).Ok? ==> ([token] + Tokens(rest).value)[0] != [v][0];
    }
  }

  // One plain piece in front of a space is the first token.
  lemma TokensCut(head: string, tail: string)
    requires PlainKey(head)
    ensures Tokens(head + [' '] + tail) == Prepend([head], Tokens(Trim(tail)))
  {
    var s := head + [' '] + tail;
    IndexOfConcat(head, tail, ' ');
    assert s[..|head|] == head && s[|head| + 1..] == tail;
  }

  lemma BarToken(tail: string)
    ensures Tokens(TrimRight("|" + ([' '] + tail))) == Prepend(["|"], Tokens(Trim(tail)))
    ensures Trimmed(TrimRight("|" + ([' '] + tail)))
  {
    hide Tokens, NextQuotedToken, Trim, TrimRight, IsSpace, Trimmed;
    BarFacts();
    BarTrimmed([' '] + tail);
    TrimRightConcat("|", [' '] + tail);
    var w := TrimTail(tail);
    if Trim(tail) != "" {
      assert "|" + ([' '] + w) == "|" + [' '] + w;
      TokensCut("|", w);
    }
  }

  lemma BarTrimmed(tail: string)
    ensures Trimmed(TrimRight("|" + tail))
  {
    BarFacts();
    TrimRightConcat("|", tail);
  }

  lemma BarFacts()
    ensures PlainKey("|") && Trimmed("|") && TrimRight("|") == "|"
    ensures Tokens("|") == Prepend(["|"], Tokens(""))
  {
    assert NextQuotedToken("|") == Ok(("|", ""));
  }

  // A printed list whose first value is plain: that value, a bar, and the rest of the list.
  lemma JoinTokens(texts: seq<string>)
    requires |texts| >= 2 && PlainKey(texts[0])
    ensures Tokens(Trim(Join(texts))) == Prepend([texts[0], "|"], Tokens(Trim(Join(texts[1..]))))
  {
    hide Tokens, NextQuotedToken, Trim, TrimRight, PlainKey;
    var head, more := texts[0], Join(texts[1..]);
    var bar := "|" + ([' '] + more);
    assert Join(texts) == head + " " + bar;
    BarToken(more);
    TrimPrinted(head, bar);
    TokensCut(head, TrimRight(bar));
    TrimTrimmed(TrimRight(bar));
    PrependTwice([head], ["|"], Tokens(Trim(more)));
    assert [head] + ["|"] == [head, "|"];
  }

  // The first token of any trimmed text: plain, or free of quotes.
  lemma FirstToken(s: string, tokens: seq<string>)
    requires Trimmed(s) && Tokens(s) == Ok(tokens) && tokens != []
    ensures s[0] != '\'' ==> PlainKey(tokens[0])
    ensures '\'' in tokens[0] ==> PlainKey(tokens[0])
  {
    TokensKinds(s);
  }

  lemma TokenKind(s: string)
    requires Trimmed(s) && NextQuotedToken(s).Ok?
    ensures var (token, rest) := NextQuotedToken(s).value;
            ('\'' in token ==> PlainKey(token)) && (rest == "" || Trimmed(rest))
  {
  }

  lemma {:induction false} TokensKinds(s: string)
    requires (s == "" || Trimmed(s)) && Tokens(s).Ok?
    ensures forall t :: t in Tokens(s).value && '\'' in t ==> PlainKey(t)
    decreases |s|
  {
    hide NextQuotedToken, PlainKey;
    if s != "" {
      TokenKind(s);
      TokensKinds(NextQuotedToken(s).value.1);
    }
  }

  lemma FirstOfList(texts: seq<string>)
    requires |texts| >= 2 && Tokens(Trim(Join(texts))) == Ok(texts)
    ensures PlainKey(texts[0])
  {
    hide Tokens, PlainKey, Join, Trim, IsSpace;
    var s := Trim(Join(texts));
    NoTokens();
    JoinHead(texts);
    FirstToken(s, texts);
    if '\'' !in texts[0] {
      FirstVisibleOfList(texts[0], Join(texts[1..]));
    }
  }

  lemma JoinHead(texts: seq<string>)
    requires |texts| >= 2
    ensures Join(texts) == texts[0] + " | " + Join(texts[1..])
  {
  }

  lemma FirstVisibleOfList(head: string, tail: string)
    requires '\'' !in head && Trim(head + " | " + tail) != ""
    ensures Trim(head + " | " + tail)[0] != '\''
  {
    var bar := " | " + tail;
    assert head + " | " + tail == head + bar;
    TrimLeftConcat(head, bar);
    assert bar[1..][0] == '|';
    TrimLeftMembers(head);
  }

  lemma BarAlone()
    ensures Tokens(Trim(Join(["|"]))) == Ok(["|"])
  {
    assert Join(["|"]) == "|" && Trim("|") == "|";
    assert NextQuotedToken("|") == Ok(("|", ""));
    assert Tokens("") == Ok([]) && ["|"] + [] == ["|"];
  }

  // Once the printed bars have been taken for values, every further value is a bar too,
  // and there are always too few of them.
  lemma {:induction false} BarsForever(texts: seq<string>, i: nat)
    requires 1 <= i < |texts| && 2 * i <= |texts|
    requires forall k :: 1 <= k < 2 * i ==> texts[k] == "|"
    ensures Tokens(Trim(Join(texts[i..]))) != Ok(texts[2 * i..])
    decreases |texts| - i
  {
    hide Tokens, Trim, Join;
    assert texts[i..][0] == "|";
    if i == |texts| - 1 {
      assert texts[i..] == ["|"];
      BarAlone();
    } else {
      JoinTokens(texts[i..]);
      assert texts[i..][1..] == texts[i + 1..];
      var rest := Tokens(Trim(Join(texts[i + 1..])));
      if rest.Ok? && texts[2 * i..] == ["|", "|"] + rest.value {
        assert texts[2 * i] == texts[2 * i..][0] && texts[2 * i + 1] == texts[2 * i..][1];
        assert texts[2 * (i + 1)..] == texts[2 * i..][2..] == rest.value;
        BarsForever(texts, i + 1);
      }
    }
  }

  /** A list of two or more values never comes back: the ` | ` between them is read as a value. */
  lemma ListsDoNotReparse(texts: seq<string>)
    requires |texts| >= 2
    ensures Tokens(Trim(Join(texts))) != Ok(texts)
  {
    hide Tokens, Trim, Join, PlainKey;
    if Tokens(Trim(Join(texts))) == Ok(texts) {
      FirstOfList(texts);
      JoinTokens(texts);
      var rest := Tokens(Trim(Join(texts[1..])));
      assert texts == [texts[0], "|"] + rest.value;
      assert texts[2..] == rest.value;
      BarsForever(texts, 1);
    }
  }

  lemma SingletonReparses(v: string)
    ensures Tokens(Trim(v)) == Ok([v]) <==> PlainToken(v)
  {
    if Trim(v) == v {
      if v != "" {
        TokensOfToken(v);
      }
    } else {
      assert Tokens(Trim(v)).Ok? && |Tokens(Trim(v)).value| == 1 ==> |Tokens(Trim(v)).value[0]| <= |Trim(v)|;
    }
  }

  lemma {:induction false} TextsOfStringValues(tokens: seq<string>)
    ensures Texts(StringValues(tokens)) == tokens
  {
    if tokens != [] {
      assert StringValues(tokens)[1..] == StringValues(tokens[1..]);
      TextsOfStringValues(tokens[1..]);
    }
  }

  // Operators with at most one value.
  lemma OneValue(f: AttributeFilter, v: string)
    requires PlainKey(f.key) && !TakesManyValues(f.operator)
    requires v == if ShownValue(f).Some? then Trim(ShownValue(f).value) else ""
    ensures ApplyOperator(f.key, f.operator, v) == Ok(f) <==> Reparses(f)
  {
    hide Tokens, IsSpace, Trim;
    if f.values.None? && f.value.Some? && f.value.value.StringValue? {
      TrimmedIff(f.value.value.text);
    }
  }

  lemma TrimmedIff(s: string)
    ensures Trimmed(s) <==> s != "" && Trim(s) == s
  {
  }

  // is_one_of and is_not_one_of.
  lemma ManyValues(f: AttributeFilter, v: string)
    requires PlainKey(f.key) && TakesManyValues(f.operator)
    requires v == if ShownValue(f).Some? then Trim(ShownValue(f).value) else ""
    ensures ApplyOperator(f.key, f.operator, v) == Ok(f) <==> Reparses(f)
  {
    hide IsSpace, Tokens;
    TrimmedIff(v);
    if f.value.None? && f.values.Some? {
      var items := f.values.value;
      var texts := Texts(items);
      if |items| == 1 && items[0].StringValue? {
        assert Texts(items[1..]) == [];
        assert texts == [items[0].text] && StringValues(texts) == items;
        SingletonReparses(items[0].text);
        TrimmedIff(items[0].text);
      }
      if ApplyOperator(f.key, f.operator, v) == Ok(f) {
        var tokens := Tokens(Trim(v)).value;
        TextsOfStringValues(tokens);
        assert texts == tokens && items == StringValues(texts);
        if |texts| >= 2 {
          ListsDoNotReparse(texts);
        }
        NoTokens();
      } else if |items| == 1 && items[0].StringValue? && PlainToken(items[0].text) {
        assert Tokens(Trim(v)) == Ok(texts);
      }
    }
  }

  lemma NoTokens()
    ensures Tokens("") == Ok([])
  {
  }

  /** Printing a criterion and parsing it gives the filter back exactly for the filters
      that Reparses accepts. */
  lemma ReparsesIff(f: AttributeFilter)
    ensures ParseFilter(FormatCriterion(f)) == Ok(f) <==> Reparses(f)
  {
    hide ParseFilter, Printed;
    if PlainKey(f.key) {
      ParsePrinted(f.key, f.operator, ShownValue(f));
      var v := if ShownValue(f).Some? then Trim(ShownValue(f).value) else "";
      if TakesManyValues(f.operator) {
        ManyValues(f, v);
      } else {
        OneValue(f, v);
      }
    } else if ParseFilter(FormatCriterion(f)) == Ok(f) {
      OnlyPlainKeys(f);
    }
  }

  // ----- Quoted value lists -----

  /** Tokens in single quotes, separated by spaces. */
  function JoinQuoted(tokens: seq<string>): string {
    if tokens == [] then ""
    else "'" + tokens[0] + "'" + if |tokens| == 1 then "" else " " + JoinQuoted(tokens[1..])
  }

  /** Quoting each value makes a list parse back, exactly when no value is empty or holds a quote. */
  lemma {:induction false} QuotedTokensIff(tokens: seq<string>)
    ensures Tokens(Trim(JoinQuoted(tokens))) == Ok(tokens) <==>
            forall t :: t in tokens ==> t != "" && '\'' !in t
  {
    hide Tokens, JoinQuoted, Trim;
    JoinQuotedTrimmed(tokens);
    if tokens == [] {
      NoTokens();
    } else {
      QuotedTokensIff(tokens[1..]);
      JoinQuotedTrimmed(tokens[1..]);
      QuotedStep(tokens);
      var all, more := Tokens(JoinQuoted(tokens)), Tokens(JoinQuoted(tokens[1..]));
      assert all == Ok(tokens) ==> all.value[0] != "";
      assert more.Ok? ==> ([tokens[0]] + more.value == tokens <==> more.value == tokens[1..]) by {
        assert more.Ok? ==> ([tokens[0]] + more.value)[1..] == more.value;
      }
      assert forall t :: t in tokens <==> t == tokens[0] || t in tokens[1..];
    }
  }

  lemma {:induction false} JoinQuotedTrimmed(tokens: seq<string>)
    ensures Trim(JoinQuoted(tokens)) == JoinQuoted(tokens)
    ensures tokens == [] ==> JoinQuoted(tokens) == ""
    ensures tokens != [] ==> Trimmed(JoinQuoted(tokens)) && JoinQuoted(tokens)[0] == '\''
  {
    if |tokens| > 1 {
      JoinQuotedTrimmed(tokens[1..]);
    }
    if tokens != [] {
      TrimmedIff(JoinQuoted(tokens));
    }
  }

  lemma QuotedStep(tokens: seq<string>)
    requires tokens != []
    ensures '\'' !in tokens[0] ==>
              Tokens(JoinQuoted(tokens)) ==
              Prepend(if tokens[0] != "" then [tokens[0]] else [], Tokens(JoinQuoted(tokens[1..])))
    ensures '\'' in tokens[0] ==> Tokens(JoinQuoted(tokens)) != Ok(tokens)
  {
    hide JoinQuoted, Trim;
    var rest := JoinQuoted(tokens[1..]);
    var tail := QuotedTail(tokens);
    QuotedToken(tokens[0], tail);
    PrependNothing(Tokens(rest));
  }

  lemma QuotedTail(tokens: seq<string>) returns (tail: string)
    requires tokens != []
    ensures JoinQuoted(tokens) == ['\''] + tokens[0] + ['\''] + tail
    ensures Trim(tail) == JoinQuoted(tokens[1..])
  {
    JoinQuotedTrimmed(tokens[1..]);
    tail := if |tokens| == 1 then "" else [' '] + JoinQuoted(tokens[1..]);
    if |tokens| > 1 {
      TrimLeadingSpace(' ', JoinQuoted(tokens[1..]));
    }
  }

  // A quoted text is cut at the first quote inside it.
  lemma QuotedToken(t: string, tail: string)
    ensures var s := ['\''] + t + ['\''] + tail;
            var next := NextQuotedToken(s);
            if '\'' in t then next.Ok? && |next.value.0| < |t| else next == Ok((t, Trim(tail)))
  {
    hide Trim;
    var s := ['\''] + t + ['\''] + tail;
    assert s[1..] == t + ['\''] + tail;
    if '\'' !in t {
      IndexOfConcat(t, tail, '\'');
      assert s[1..|t| + 1] == t && s[|t| + 2..] == tail;
    } else {
      var i :| 0 <= i < |t| && t[i] == '\'';
      assert s[1..][i] == '\'';
      assert IndexOf(s[1..], '\'') <= i;
    }
  }

  // ----- Keys and operators as a user may write them -----

  predicate TakesValue(op: Operator, v: string) {
    && Trimmed(v) && !TakesNoValue(op) && !TakesManyValues(op)
    && !(IsEmptyLiteral(v) && (op == Is || op == IsNot))
  }

  function Single(key: string, op: Operator, v: string): AttributeFilter {
    AttributeFilter(key, op, Some(StringValue(v)), None)
  }

  // What stands behind a key, with one value.
  lemma OneValueBehind(key: string, token: string, op: Operator, v: string)
    requires IsNameOf(token, op) && Trimmed(v)
    ensures Trimmed(token + " " + v)
    ensures ParseFilterOperatorAndValue(key, token + " " + v) == ApplyOperator(key, op, v)
  {
    hide KnownOperator, ApplyOperator, ParseFilterOperatorAndValue;
    TrimTrimmed(v);
    assert token + " " + v == token + [' '] + v;
    SplitPayload(key, token, op, token + " " + v, v);
  }

  // The quoted key is found, up to the first quote in it.
  lemma QuotedKeyParses(key: string, rest: string)
    requires Trimmed(rest)
    ensures var s := "'" + key + "' " + rest;
            if key != "" && '\'' !in key then ParseFilterKey(s) == Ok((key, rest))
            else ParseFilterKey(s).Ok? ==> ParseFilterKey(s).value.0 != key
  {
    hide IsSpace, Trim, Trimmed, IndexOf;
    var s := "'" + key + "' " + rest;
    assert s[1..] == key + ['\''] + (" " + rest);
    if '\'' in key {
      QuoteInside(key, " " + rest);
    } else {
      IndexOfConcat(key, " " + rest, '\'');
      RestBehindQuote(key, rest);
    }
  }

  lemma RestBehindQuote(key: string, rest: string)
    requires Trimmed(rest)
    ensures var s := "'" + key + "' " + rest;
            s[1..|key| + 1] == key && Trim(s[|key| + 2..]) == rest
  {
    hide IsSpace, TrimRight, TrimLeft;
    var s := "'" + key + "' " + rest;
    assert s[|key| + 2..] == [' '] + rest;
    SpaceInFront(rest);
  }

  lemma SpaceInFront(rest: string)
    requires Trimmed(rest)
    ensures Trim([' '] + rest) == rest
  {
    TrimLeadingSpace(' ', rest);
    TrimTrimmed(rest);
  }

  lemma QuotedIsTrimmed(key: string, rest: string)
    requires Trimmed(rest)
    ensures Trim("'" + key + "' " + rest) == "'" + key + "' " + rest
  {
    var s := "'" + key + "' " + rest;
    assert s[|s| - 1] == rest[|rest| - 1];
    TrimTrimmed(s);
  }

  /** Quoting the key lets every key through that is not empty and holds no quote. */
  lemma QuotedKeyIff(key: string, op: Operator, v: string)
    requires TakesValue(op, v)
    ensures ParseFilter("'" + key + "' " + (Name(op) + " " + v)) == Ok(Single(key, op, v))
       <==> key != "" && '\'' !in key
  {
    hide Name, KnownOperator, ParseFilterOperatorAndValue, ParseFilterKey, Tokens, Trim, IsSpace, IsNameOf;
    NameFacts(op);
    OneValueBehind(key, Name(op), op, v);
    QuotedIsTrimmed(key, Name(op) + " " + v);
    QuotedKeyParses(key, Name(op) + " " + v);
  }

  /** Leaving the operator out means `is`, exactly when the value does not begin with an operator. */
  lemma ImplicitIsIff(key: string, v: string)
    requires PlainKey(key) && Trimmed(v)
    ensures ParseFilter(key + " " + v) == Ok(Single(key, Is, v)) <==> KnownOperator(v[..IndexOf(v, ' ')]) == None
  {
    hide KnownOperator, ApplyOperator, ParseFilterKey, IsSpace, PlainKey, Trim, TrimRight, Tokens;
    TrimmedStays(v);
    TrimPrinted(key, v);
    SplitKey(key, v);
    var cut := IndexOf(v, ' ');
    var value := if cut < |v| then Trim(v[cut + 1..]) else "";
    assert |value| < |v|;
    forall op ensures ApplyOperator(key, op, value) != Ok(Single(key, Is, v)) {
      ShorterValue(key, op, value, v);
    }
  }

  lemma ShorterValue(key: string, op: Operator, value: string, v: string)
    requires |value| < |v|
    ensures ApplyOperator(key, op, value) != Ok(Single(key, Is, v))
  {
    hide Tokens;
  }

  /** Two spellings of an operator mean the same. */
  lemma SpellingsAgree(key: string, a: string, b: string, op: Operator, v: string)
    requires PlainKey(key) && IsNameOf(a, op) && IsNameOf(b, op) && Trimmed(v)
    ensures ParseFilter(key + " " + (a + " " + v)) == ParseFilter(key + " " + (b + " " + v))
  {
    hide KnownOperator, ApplyOperator, ParseFilterOperatorAndValue, ParseFilterKey, PlainKey, PlainToken, IsSpace;
    OneValueBehind(key, a, op, v);
    OneValueBehind(key, b, op, v);
    TrimmedStays(a + " " + v);
    TrimmedStays(b + " " + v);
    TrimPrinted(key, a + " " + v);
    TrimPrinted(key, b + " " + v);
    SplitKey(key, a + " " + v);
    SplitKey(key, b + " " + v);
  }

  /** A key, an operator as it is written, and a value. */
  function Written(key: string, operator: string, v: string): string {
    key + " " + (operator + " " + v)
  }

  /** A token that stands for an operator with one value builds its filter. */
  lemma OperatorParses(key: string, token: string, op: Operator, v: string)
    requires PlainKey(key) && IsNameOf(token, op) && TakesValue(op, v)
    ensures ParseFilter(Written(key, token, v)) == Ok(Single(key, op, v))
  {
    hide KnownOperator, ParseFilterOperatorAndValue, ParseFilterKey, PlainToken, IsSpace, Tokens;
    OneValueBehind(key, token, op, v);
    TrimmedStays(token + " " + v);
    TrimPrinted(key, token + " " + v);
    SplitKey(key, token + " " + v);
  }

  predicate TokenMeans(key: string, token: string, op: Operator, v: string) {
    ParseFilter(Written(key, token, v)) == Ok(Single(key, op, v))
  }

  /** Every operator with one value, by name. */
  lemma NamesMean(key: string, v: string)
    requires PlainKey(key) && Trimmed(v) && !IsEmptyLiteral(v)
    ensures TokenMeans(key, "is", Is, v) && TokenMeans(key, "is_not", IsNot, v)
    ensures TokenMeans(key, "contains", Contains, v) && TokenMeans(key, "does_not_contain", DoesNotContain, v)
    ensures TokenMeans(key, "starts_with", StartsWith, v) && TokenMeans(key, "does_not_start_with", DoesNotStartWith, v)
    ensures TokenMeans(key, "ends_with", EndsWith, v) && TokenMeans(key, "does_not_end_with", DoesNotEndWith, v)
    ensures TokenMeans(key, "matches", Matches, v) && TokenMeans(key, "does_not_match", DoesNotMatch, v)
    ensures TokenMeans(key, "gt", Gt, v) && TokenMeans(key, "gte", Gte, v)
    ensures TokenMeans(key, "lt", Lt, v) && TokenMeans(key, "lte", Lte, v)
    ensures TokenMeans(key, "is_any", IsAny, v)
  {
    hide TokenMeans, Trimmed, PlainKey, Name, IsEmptyLiteral;
    NamesSpelled();
    NameMeans(key, "is", Is, v);
    NameMeans(key, "is_not", IsNot, v);
    NameMeans(key, "contains", Contains, v);
    NameMeans(key, "does_not_contain", DoesNotContain, v);
    NameMeans(key, "starts_with", StartsWith, v);
    NameMeans(key, "does_not_start_with", DoesNotStartWith, v);
    NameMeans(key, "ends_with", EndsWith, v);
    NameMeans(key, "does_not_end_with", DoesNotEndWith, v);
    NameMeans(key, "matches", Matches, v);
    NameMeans(key, "does_not_match", DoesNotMatch, v);
    NameMeans(key, "gt", Gt, v);
    NameMeans(key, "gte", Gte, v);
    NameMeans(key, "lt", Lt, v);
    NameMeans(key, "lte", Lte, v);
    NameMeans(key, "is_any", IsAny, v);
  }

  lemma NamesSpelled()
    ensures Name(Is) == "is" && Name(IsNot) == "is_not"
    ensures Name(Contains) == "contains" && Name(DoesNotContain) == "does_not_contain"
    ensures Name(StartsWith) == "starts_with" && Name(DoesNotStartWith) == "does_not_start_with"
    ensures Name(EndsWith) == "ends_with" && Name(DoesNotEndWith) == "does_not_end_with"
    ensures Name(Matches) == "matches" && Name(DoesNotMatch) == "does_not_match"
    ensures Name(Gt) == "gt" && Name(Gte) == "gte" && Name(Lt) == "lt" && Name(Lte) == "lte"
    ensures Name(IsAny) == "is_any" && Name(IsSet) == "is_set" && Name(IsNotSet) == "is_not_set"
    ensures Name(IsOneOf) == "is_one_of" && Name(IsNotOneOf) == "is_not_one_of"
  {
  }

  lemma SymbolsKnown()
    ensures KnownOperator("=") == Some(Is) && KnownOperator("!=") == Some(IsNot)
    ensures KnownOperator(">") == Some(Gt) && KnownOperator(">=") == Some(Gte)
    ensures KnownOperator("<") == Some(Lt) && KnownOperator("<=") == Some(Lte)
    ensures KnownOperator("~") == Some(Matches) && KnownOperator("!~") == Some(DoesNotMatch)
  {
    hide NamedOperator;
    NamesAreLetters("=");
    NamesAreLetters("!=");
    NamesAreLetters(">");
    NamesAreLetters(">=");
    NamesAreLetters("<");
    NamesAreLetters("<=");
    NamesAreLetters("~");
    NamesAreLetters("!~");
  }

  const SYMBOLS := ["=", "!=", ">", ">=", "<", "<=", "~", "!~"]

  const NAMES := [
    "is", "is_not", "contains", "does_not_contain", "starts_with", "does_not_start_with", "ends_with",
    "does_not_end_with", "matches", "does_not_match", "gt", "gte", "lt", "lte", "is_any", "is_set",
    "is_not_set", "is_one_of", "is_not_one_of"]

  lemma OnlyNames(token: string)
    ensures NamedOperator(token).Some? <==> token in NAMES
  {
  }

  lemma OnlySymbols(token: string)
    ensures SymbolOperator(token).Some? <==> token in SYMBOLS
  {
  }

  /** There are no other operators. */
  lemma NoOtherOperators(token: string)
    ensures KnownOperator(token).Some? <==> token in SYMBOLS || token in NAMES
  {
    hide NamedOperator, SymbolOperator;
    OnlyNames(token);
    OnlySymbols(token);
  }

  lemma NamesAreLetters(token: string)
    ensures NamedOperator(token).Some? ==> token != "" && 'a' <= token[0] <= 'z'
  {
  }

  lemma NameMeans(key: string, token: string, op: Operator, v: string)
    requires PlainKey(key) && Trimmed(v) && !IsEmptyLiteral(v) && token == Name(op)
    requires !TakesNoValue(op) && !TakesManyValues(op)
    ensures TokenMeans(key, token, op, v)
  {
    hide Name, KnownOperator, PlainKey;
    NameFacts(op);
    OperatorParses(key, token, op, v);
  }

  /** The eight symbols and the names they stand for give the same filter. */
  lemma SymbolsMeanNames(key: string, v: string)
    requires PlainKey(key) && Trimmed(v)
    ensures ParseFilter(Written(key, "=", v)) == ParseFilter(Written(key, "is", v))
    ensures ParseFilter(Written(key, "!=", v)) == ParseFilter(Written(key, "is_not", v))
    ensures ParseFilter(Written(key, ">", v)) == ParseFilter(Written(key, "gt", v))
    ensures ParseFilter(Written(key, ">=", v)) == ParseFilter(Written(key, "gte", v))
    ensures ParseFilter(Written(key, "<", v)) == ParseFilter(Written(key, "lt", v))
    ensures ParseFilter(Written(key, "<=", v)) == ParseFilter(Written(key, "lte", v))
    ensures ParseFilter(Written(key, "~", v)) == ParseFilter(Written(key, "matches", v))
    ensures ParseFilter(Written(key, "!~", v)) == ParseFilter(Written(key, "does_not_match", v))
  {
    hide ParseFilter, Trimmed, PlainKey, Name, KnownOperator, Written;
    NamesSpelled();
    SymbolsKnown();
    SymbolMeansName(key, "=", "is", Is, v);
    SymbolMeansName(key, "!=", "is_not", IsNot, v);
    SymbolMeansName(key, ">", "gt", Gt, v);
    SymbolMeansName(key, ">=", "gte", Gte, v);
    SymbolMeansName(key, "<", "lt", Lt, v);
    SymbolMeansName(key, "<=", "lte", Lte, v);
    SymbolMeansName(key, "~", "matches", Matches, v);
    SymbolMeansName(key, "!~", "does_not_match", DoesNotMatch, v);
  }

  lemma SymbolMeansName(key: string, symbol: string, name: string, op: Operator, v: string)
    requires PlainKey(key) && Trimmed(v) && name == Name(op)
    requires symbol in ["=", "!=", ">", ">=", "<", "<=", "~", "!~"] && KnownOperator(symbol) == Some(op)
    ensures ParseFilter(Written(key, symbol, v)) == ParseFilter(Written(key, name, v))
  {
    NameFacts(op);
    hide Name, KnownOperator, ParseFilter;
    assert PlainToken(symbol) && '\'' !in symbol;
    SpellingsAgree(key, symbol, name, op, v);
  }

  /** `= ""` asks for keys that are not set and `!= ""` for keys that are, also in single quotes. */
  lemma EmptyLiteralMeansSet(key: string, v: string)
    requires PlainKey(key) && (v == "\"\"" || v == "''")
    ensures ParseFilter(Written(key, "=", v)) == Ok(AttributeFilter(key, IsNotSet, None, None))
    ensures ParseFilter(Written(key, "is", v)) == Ok(AttributeFilter(key, IsNotSet, None, None))
    ensures ParseFilter(Written(key, "!=", v)) == Ok(AttributeFilter(key, IsSet, None, None))
    ensures ParseFilter(Written(key, "is_not", v)) == Ok(AttributeFilter(key, IsSet, None, None))
  {
    assert Trimmed(v);
    EmptyLiteral(key, "is", Is, v);
    EmptyLiteral(key, "is_not", IsNot, v);
    SymbolsMeanNames(key, v);
  }

  lemma EmptyLiteral(key: string, name: string, op: Operator, v: string)
    requires PlainKey(key) && IsEmptyLiteral(v) && Trimmed(v) && name == Name(op) && (op == Is || op == IsNot)
    ensures ParseFilter(Written(key, name, v)) == Ok(AttributeFilter(key, if op == Is then IsNotSet else IsSet, None, None))
  {
    NameFacts(op);
    hide Name, KnownOperator, ParseFilterOperatorAndValue, ParseFilterKey, PlainToken, IsSpace, Tokens;
    OneValueBehind(key, name, op, v);
    TrimmedStays(name + " " + v);
    TrimPrinted(key, name + " " + v);
    SplitKey(key, name + " " + v);
  }

  /** The operators without a value, by name; with one they are refused. */
  lemma SetOperatorsMean(key: string, v: string)
    requires PlainKey(key) && Trimmed(v)
    ensures ParseFilter(key + " " + "is_set") == Ok(AttributeFilter(key, IsSet, None, None))
    ensures ParseFilter(key + " " + "is_not_set") == Ok(AttributeFilter(key, IsNotSet, None, None))
    ensures ParseFilter(Written(key, "is_set", v)) == Err(ValueNotAccepted(IsSet))
    ensures ParseFilter(Written(key, "is_not_set", v)) == Err(ValueNotAccepted(IsNotSet))
  {
    hide ParseFilter, Name, Trim, PlainKey, IsSpace, Tokens;
    NamesSpelled();
    TrimTrimmed(v);
    ParsePrinted(key, IsSet, None);
    ParsePrinted(key, IsNotSet, None);
    ParsePrinted(key, IsSet, Some(v));
    ParsePrinted(key, IsNotSet, Some(v));
  }

  /** Nothing, a key alone, and an operator that lacks its value are refused. */
  lemma Incomplete(key: string, op: Operator)
    requires PlainKey(key) && Trimmed(key) && !TakesNoValue(op)
    ensures ParseFilter("") == Err(EmptyExpression)
    ensures ParseFilter(key) == Err(NothingAfterKey)
    ensures ParseFilter(key + " " + Name(op)) == Err(ValueRequired(op))
  {
    hide Name;
    ParsePrinted(key, op, None);
    TrimTrimmed(key);
    assert IndexOf(key, ' ') == |key|;
  }

  /** A list operator with single-quoted values builds the list of these values, in order. */
  lemma ListMeans(key: string, op: Operator, tokens: seq<string>)
    requires PlainKey(key) && TakesManyValues(op) && tokens != []
    requires forall t :: t in tokens ==> t != "" && '\'' !in t
    ensures var r := ParseFilter(Written(key, if op == IsOneOf then "is_one_of" else "is_not_one_of", JoinQuoted(tokens)));
            && r.Ok? && r.value.key == key && r.value.operator == op && r.value.value == None && r.value.values.Some?
            && |r.value.values.value| == |tokens|
            && forall i :: 0 <= i < |tokens| ==> r.value.values.value[i] == StringValue(tokens[i])
  {
    hide ParseFilter, Name, Trim, Tokens, JoinQuoted, PlainKey, IsSpace;
    NamesSpelled();
    JoinQuotedTrimmed(tokens);
    QuotedTokensIff(tokens);
    ParsePrinted(key, op, Some(JoinQuoted(tokens)));
    assert !IsEmptyLiteral(JoinQuoted(tokens)) || !(op == Is || op == IsNot);
  }

  // ----- Errors -----

  /** What is refused before the operator is read: blank text, an open or empty quoted key, a key alone. */
  lemma KeyErrorsIff(text: string)
    ensures var s, r := Trim(text), ParseFilter(text);
            && (r == Err(EmptyExpression) <==> s == "")
            && (r == Err(UnclosedQuoteInKey) <==> s != "" && s[0] == '\'' && '\'' !in s[1..])
            && (r == Err(EmptyKey) <==> |s| >= 2 && s[0] == '\'' && s[1] == '\'')
            && (r == Err(NothingAfterKey) <==> IsKeyAlone(s))
  {
    hide ParseFilterOperatorAndValue, Trim, IndexOf;
    var s := Trim(text);
    if s != "" {
      KeyAlone(s);
      var parsed := ParseFilterKey(s);
      if parsed.Ok? {
        BehindKey(parsed.value.0, parsed.value.1);
      }
    }
  }

  /** One plain word, or one quoted text. */
  predicate IsKeyAlone(s: string) {
    && s != ""
    && if s[0] != '\'' then ' ' !in s
       else |s| >= 3 && s[1] != '\'' && s[|s| - 1] == '\'' && '\'' !in s[1..|s| - 1]
  }

  lemma KeyAlone(s: string)
    requires Trimmed(s)
    ensures IsKeyAlone(s) <==> ParseFilterKey(s).Ok? && ParseFilterKey(s).value.1 == ""
  {
    hide IsSpace, Trim;
    TrimmedTail(s);
    PlainChars();
    if s[0] == '\'' {
      var end := IndexOf(s[1..], '\'');
      if end == |s| - 1 {
        assert |s| > 1 ==> s[1..][|s| - 2] == s[|s| - 1];
      } else {
        assert s[1..end + 1] == s[1..][..end] && s[end + 1] == '\'';
        assert end + 2 < |s| ==> s[1..|s| - 1][end] == '\'';
        assert end == 0 ==> s[1] == '\'';
        assert end > 0 ==> s[1..end + 1][0] == s[1];
      }
    }
  }

  lemma PlainChars()
    ensures IsSpace(' ') && !IsSpace('\'')
  {
  }

  // What stands behind any place in a trimmed text is not blank.
  lemma TrimmedTail(s: string)
    requires Trimmed(s)
    ensures forall i :: 0 <= i <= |s| ==> (Trim(s[i..]) == "" <==> i == |s|)
  {
    forall i | 0 <= i <= |s| ensures Trim(s[i..]) == "" <==> i == |s| {
      TrimEmpty(s[i..]);
      assert i < |s| ==> s[i..][|s[i..]| - 1] == s[|s| - 1];
    }
  }

  // Behind the key other errors are told.
  lemma BehindKey(key: string, rest: string)
    ensures var r := ParseFilterOperatorAndValue(key, rest);
            r.Err? ==> r.error.ValueNotAccepted? || r.error.ValueRequired? || r.error == UnclosedQuoteInValue
  {
    hide KnownOperator;
    forall s: string ensures Tokens(s).Err? ==> Tokens(s).error == UnclosedQuoteInValue {
      TokensErr(s);
    }
  }

  lemma {:induction false} TokensErr(s: string)
    ensures Tokens(s).Err? ==> Tokens(s).error == UnclosedQuoteInValue
    decreases |s|
  {
    if s != "" && NextQuotedToken(s).Ok? {
      TokensErr(NextQuotedToken(s).value.1);
    }
  }

  /** Quoted tokens, and behind them one whose quote is not closed. */
  function OpenQuoted(tokens: seq<string>, v: string): string {
    if tokens == [] then "'" + v else "'" + tokens[0] + "' " + OpenQuoted(tokens[1..], v)
  }

  lemma {:induction false} OpenQuotedTokens(tokens: seq<string>, v: string)
    requires '\'' !in v && (v == "" || !IsSpace(v[|v| - 1])) && forall t :: t in tokens ==> '\'' !in t
    ensures Trimmed(OpenQuoted(tokens, v)) && Tokens(OpenQuoted(tokens, v)) == Err(UnclosedQuoteInValue)
  {
    hide Trim, IsSpace;
    var s := OpenQuoted(tokens, v);
    PlainChars();
    if tokens == [] {
      assert s[1..] == v && (v != "" ==> s[|s| - 1] == v[|v| - 1]);
    } else {
      var rest := OpenQuoted(tokens[1..], v);
      OpenQuotedTokens(tokens[1..], v);
      assert s == ['\''] + tokens[0] + ['\''] + ([' '] + rest);
      QuotedToken(tokens[0], [' '] + rest);
      SpaceInFront(rest);
      assert s[|s| - 1] == rest[|rest| - 1];
    }
  }

  /** A list with an open quote is refused, whatever stands before it. */
  lemma OpenListRefused(key: string, op: Operator, tokens: seq<string>, v: string)
    requires PlainKey(key) && TakesManyValues(op)
    requires '\'' !in v && (v == "" || !IsSpace(v[|v| - 1])) && forall t :: t in tokens ==> '\'' !in t
    ensures ParseFilter(Written(key, if op == IsOneOf then "is_one_of" else "is_not_one_of", OpenQuoted(tokens, v)))
         == Err(UnclosedQuoteInValue)
  {
    hide ParseFilter, Name, Trim, Tokens, OpenQuoted, PlainKey, IsSpace;
    NamesSpelled();
    OpenQuotedTokens(tokens, v);
    TrimTrimmed(OpenQuoted(tokens, v));
    ParsePrinted(key, op, Some(OpenQuoted(tokens, v)));
  }

  lemma TrimmedStays(v: string)
    requires Trimmed(v)
    ensures TrimRight(v) == v
  {
  }

  lemma QuoteInside(key: string, tail: string)
    requires '\'' in key
    ensures IndexOf(key + ['\''] + tail, '\'') < |key|
  {
    var s := key + ['\''] + tail;
    var i :| 0 <= i < |key| && key[i] == '\'';
    assert s[i] == '\'';
    forall j | 0 <= j < IndexOf(s, '\'') ensures s[j] != '\'' {
      assert s[j] in s[..IndexOf(s, '\'')];
    }
  }
}
