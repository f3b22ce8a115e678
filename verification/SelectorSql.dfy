// Label selectors as SQL (pkg/storage/internalstorage/json_builder.go and util.go). The expression
// that is built for a requirement is modelled token by token, and the database as a parser with the
// usual precedence (AND before OR) that evaluates conditions in three-valued logic over a JSON
// document. So the parentheses and the IS NULL branches are part of what is proved.
module SelectorSql {
  import opened Common

  datatype Dialect = MySQL | SQLite | Postgres

  // ---------------------------------------------------------------------------------------------
  // Documents.

  datatype Json = JNull | JString(text: string) | JNumber(digits: string) | JObject(fields: map<string, Json>)

  function Extract(doc: Json, keys: seq<string>): Option<Json>
    decreases |keys|
  {
    if keys == [] then Some(doc)
    else if doc.JObject? && keys[0] in doc.fields then Extract(doc.fields[keys[0]], keys[1..])
    else None
  }

  type Labels = map<string, string>

  // metadata.labels is missing or maps keys to strings.
  ghost predicate WellTyped(doc: Json) {
    match Extract(doc, ["metadata", "labels"])
    case None => true
    case Some(labels) =>
      labels.JObject? && forall k :: k in labels.fields ==> labels.fields[k].JString?
  }

  function LabelsOf(doc: Json): Labels {
    match Extract(doc, ["metadata", "labels"])
    case Some(JObject(fields)) => map k | k in fields && fields[k].JString? :: fields[k].text
    case _ => map[]
  }

  lemma {:induction false} ExtractMember(doc: Json, path: seq<string>, key: string)
    ensures Extract(doc, path + [key]) ==
            match Extract(doc, path)
            case Some(JObject(fields)) => if key in fields then Some(fields[key]) else None
            case _ => None
    decreases |path|
  {
    if path == [] {
      assert path + [key] == [key] && [key][1..] == [];
    } else {
      assert (path + [key])[1..] == path[1..] + [key];
      if doc.JObject? && path[0] in doc.fields {
        ExtractMember(doc.fields[path[0]], path[1..], key);
      }
    }
  }

  lemma ExtractLabel(doc: Json, key: string)
    requires WellTyped(doc)
    ensures Extract(doc, ["metadata", "labels", key]) ==
            if key in LabelsOf(doc) then Some(JString(LabelsOf(doc)[key])) else None
  {
    ExtractMember(doc, ["metadata", "labels"], key);
    assert ["metadata", "labels"] + [key] == ["metadata", "labels", key];
  }

  // ---------------------------------------------------------------------------------------------
  // JSON paths of MySQL and SQLite: $."k1"."k2".

  function Quoted(keys: seq<string>): string {
    if keys == [] then "" else ".\"" + keys[0] + "\"" + Quoted(keys[1..])
  }

  // The keys with quotes and a dot between them.
  function JoinKeys(keys: seq<string>): string {
    if keys == [] then "" else if |keys| == 1 then keys[0] else keys[0] + "\".\"" + JoinKeys(keys[1..])
  }

  function PathText(keys: seq<string>): string { "$.\"" + JoinKeys(keys) + "\"" }

  lemma {:induction false} JoinedIsQuoted(keys: seq<string>)
    requires keys != []
    ensures ".\"" + JoinKeys(keys) + "\"" == Quoted(keys)
  {
    if |keys| == 1 {
      assert keys[1..] == [];
      assert ".\"" + keys[0] + "\"" + "" == ".\"" + keys[0] + "\"";
    } else {
      JoinedIsQuoted(keys[1..]);
      assert ".\"" + (keys[0] + "\".\"" + JoinKeys(keys[1..])) + "\"" ==
             ".\"" + keys[0] + "\"" + (".\"" + JoinKeys(keys[1..]) + "\"");
    }
  }

  predicate Plain(key: string) { '"' !in key }

  // The text up to the first double quote.
  function Until(s: string): (r: string)
    ensures |r| <= |s| && s[..|r|] == r && '"' !in r
    ensures |r| < |s| ==> s[|r|] == '"'
  {
    if s == "" || s[0] == '"' then "" else [s[0]] + Until(s[1..])
  }

  // How the database reads the members of a path.
  function ParseQuoted(s: string): Option<seq<string>>
    decreases |s|
  {
    if s == "" then Some([])
    else if |s| < 2 || s[..2] != ".\"" then None
    else
      var name := Until(s[2..]);
      if |name| + 2 == |s| then None
      else
        match ParseQuoted(s[|name| + 3..])
        case None => None
        case Some(rest) => Some([name] + rest)
  }

  function ParsePath(s: string): Option<seq<string>> {
    if s == "" || s[0] != '$' then None else ParseQuoted(s[1..])
  }

  lemma {:induction false} UntilQuote(key: string, rest: string)
    requires Plain(key)
    ensures Until(key + "\"" + rest) == key
  {
    if key != "" {
      assert (key + "\"" + rest)[1..] == key[1..] + "\"" + rest;
      UntilQuote(key[1..], rest);
    }
  }

  lemma ParseMember(name: string, rest: string)
    requires Plain(name)
    ensures ParseQuoted(".\"" + name + "\"" + rest) ==
            match ParseQuoted(rest) case None => None case Some(keys) => Some([name] + keys)
  {
    var s := ".\"" + name + "\"" + rest;
    assert s[2..] == name + "\"" + rest && s[..2] == ".\"";
    UntilQuote(name, rest);
    assert s[|name| + 3..] == rest;
  }

  lemma {:induction false} QuotedRoundTrip(keys: seq<string>)
    requires forall i :: 0 <= i < |keys| ==> Plain(keys[i])
    ensures ParseQuoted(Quoted(keys)) == Some(keys)
  {
    if keys != [] {
      QuotedRoundTrip(keys[1..]);
      ParseMember(keys[0], Quoted(keys[1..]));
      assert keys == [keys[0]] + keys[1..];
    }
  }

  // Members that are read have no quotes.
  lemma {:induction false} ParsedIsPlain(s: string)
    ensures ParseQuoted(s).Some? ==> forall i :: 0 <= i < |ParseQuoted(s).value| ==> Plain(ParseQuoted(s).value[i])
    decreases |s|
  {
    if ParseQuoted(s).Some? && s != "" {
      ParsedIsPlain(s[|Until(s[2..])| + 3..]);
    }
  }

  // A path denotes the keys it was built from if and only if there is a key and no key has a quote: keys
  // are not escaped.
  lemma PathRoundTrip(keys: seq<string>)
    ensures ParsePath(PathText(keys)) == Some(keys) <==> keys != [] && forall i :: 0 <= i < |keys| ==> Plain(keys[i])
  {
    var members := PathText(keys)[1..];
    assert members == ".\"" + JoinKeys(keys) + "\"";
    ParsedIsPlain(members);
    if keys == [] {
      ParseMember("", "");
      assert members == ".\"" + "" + "\"" + "";
    } else {
      JoinedIsQuoted(keys);
      if forall i :: 0 <= i < |keys| ==> Plain(keys[i]) {
        QuotedRoundTrip(keys);
      }
    }
  }

  // What a key with quotes in it denotes: for any two keys, the path of both is the path of one.
  lemma QuoteBreaksPath(a: string, b: string)
    ensures PathText([a + "\".\"" + b]) == PathText([a, b])
    ensures Plain(a) && Plain(b) ==> ParsePath(PathText([a + "\".\"" + b])) == Some([a, b])
  {
    assert [a, b][1..] == [b];
    assert JoinKeys([a, b]) == a + "\".\"" + JoinKeys([b]) == a + "\".\"" + b;
    PathRoundTrip([a, b]);
    if Plain(a) && Plain(b) {
      assert forall i :: 0 <= i < |[a, b]| ==> Plain([a, b][i]);
    }
  }

  // ---------------------------------------------------------------------------------------------
  // SQL.

  datatype Operand =
    | JsonExtract(path: string)     // JSON_EXTRACT(column, path)
    | JsonUnquote(path: string)     // JSON_UNQUOTE(JSON_EXTRACT(column, path))
    | CastAsText(path: string)      // CAST(JSON_EXTRACT(column, path) AS TEXT)
    | Arrows(keys: seq<string>)     // column -> k1 -> ... ->> kn

  datatype Token =
    | LParen | RParen | AND | OR
    | Value(operand: Operand)
    | IS_NULL | IS_NOT_NULL
    | EQ(value: string) | NE(value: string) | IN(values: seq<string>) | NOT_IN(values: seq<string>)

  datatype Truth = True | False | Unknown

  function Not(a: Truth): Truth { match a case True => False case False => True case Unknown => Unknown }

  function Both(a: Truth, b: Truth): Truth {
    if a.False? || b.False? then False else if a.True? && b.True? then True else Unknown
  }

  function Either(a: Truth, b: Truth): Truth {
    if a.True? || b.True? then True else if a.False? && b.False? then False else Unknown
  }

  function ToTruth(b: bool): Truth { if b then True else False }

  // The SQL text of an operand; None is NULL. A JSON null is NULL for SQLite and Postgres only.
  function Text(operand: Operand, doc: Json): Option<string> {
    var json :=
      if operand.Arrows? then Extract(doc, operand.keys)
      else match ParsePath(operand.path) case None => None case Some(keys) => Extract(doc, keys);
    match json
    case None => None
    case Some(JString(s)) => Some(s)
    case Some(JNumber(n)) => Some(n)
    case Some(JObject(_)) => Some("{}")
    case Some(JNull) => if operand.CastAsText? || operand.Arrows? then None else Some("null")
  }

  predicate IsCondition(t: Token) {
    t.IS_NULL? || t.IS_NOT_NULL? || t.EQ? || t.NE? || t.IN? || t.NOT_IN?
  }

  function Condition(text: Option<string>, t: Token): Truth
    requires IsCondition(t)
  {
    match t
    case IS_NULL => ToTruth(text.None?)
    case IS_NOT_NULL => ToTruth(text.Some?)
    case EQ(v) => if text.None? then Unknown else ToTruth(text.value == v)
    case NE(v) => if text.None? then Unknown else ToTruth(text.value != v)
    case IN(vs) => if text.None? then Unknown else ToTruth(text.value in vs)
    case NOT_IN(vs) => if text.None? then Unknown else ToTruth(text.value !in vs)
  }

  // The value of a condition and the tokens after it; None is a syntax error.
  type Parsed = Option<(Truth, seq<Token>)>

  function ParseOr(doc: Json, t: seq<Token>): (r: Parsed)
    ensures r.Some? ==> |r.value.1| < |t|
    decreases |t|, 2
  {
    match ParseAnd(doc, t)
    case None => None
    case Some((left, rest)) =>
      if rest == [] || rest[0] != OR then Some((left, rest))
      else
        match ParseOr(doc, rest[1..])
        case None => None
        case Some((right, after)) => Some((Either(left, right), after))
  }

  function ParseAnd(doc: Json, t: seq<Token>): (r: Parsed)
    ensures r.Some? ==> |r.value.1| < |t|
    decreases |t|, 1
  {
    match ParsePrimary(doc, t)
    case None => None
    case Some((left, rest)) =>
      if rest == [] || rest[0] != AND then Some((left, rest))
      else
        match ParseAnd(doc, rest[1..])
        case None => None
        case Some((right, after)) => Some((Both(left, right), after))
  }

  function ParsePrimary(doc: Json, t: seq<Token>): (r: Parsed)
    ensures r.Some? ==> |r.value.1| < |t|
    decreases |t|, 0
  {
    if |t| < 2 then None
    else if t[0].LParen? then
      match ParseOr(doc, t[1..])
      case None => None
      case Some((inner, rest)) => if rest == [] || rest[0] != RParen then None else Some((inner, rest[1..]))
    else if t[0].Value? && IsCondition(t[1]) then Some((Condition(Text(t[0].operand, doc), t[1]), t[2..]))
    else None
  }

  // Rows are kept when the whole clause is a condition that is TRUE; without a clause all are kept.
  predicate Keeps(doc: Json, where: seq<Token>) {
    where == [] || ParseOr(doc, where) == Some((True, []))
  }

  // ---------------------------------------------------------------------------------------------
  // JSONQueryExpression.

  // The operand that is compared, and the one that is tested for NULL first.
  function TextOperand(d: Dialect, keys: seq<string>): Operand {
    match d
    case MySQL => JsonUnquote(PathText(keys))
    case SQLite => CastAsText(PathText(keys))
    case Postgres => Arrows(keys)
  }

  function NullOperand(d: Dialect, keys: seq<string>): Operand {
    if d.Postgres? then Arrows(keys) else JsonExtract(PathText(keys))
  }

  function ConditionToken(negated: bool, values: seq<string>): Token {
    if |values| == 0 then if negated then IS_NULL else IS_NOT_NULL
    else if |values| == 1 then if negated then NE(values[0]) else EQ(values[0])
    else if negated then NOT_IN(values) else IN(values)
  }

  function Expression(d: Dialect, keys: seq<string>, negated: bool, values: seq<string>): seq<Token> {
    var core := [Value(TextOperand(d, keys)), ConditionToken(negated, values)];
    if keys == [] then []
    else if negated && values != [] then [LParen, Value(NullOperand(d, keys)), IS_NULL, OR] + core + [RParen]
    else core
  }

  class JsonQuery {
    const keys: seq<string>
    var negated: bool
    var values: seq<string>

    constructor (keys: seq<string>)
      ensures this.keys == keys && !negated && values == []
    {
      this.keys := keys;
      negated, values := false, [];
    }

    method Exist()
      modifies this
      ensures !negated && values == old(values)
    {
      negated := false;
    }

    method NotExist()
      modifies this
      ensures negated && values == old(values)
    {
      negated := true;
    }

    method In(vs: seq<string>)
      modifies this
      ensures !negated && values == vs
    {
      negated, values := false, vs;
    }

    method NotIn(vs: seq<string>)
      modifies this
      ensures negated && values == vs
    {
      negated, values := true, vs;
    }

    // Writes the expression piece by piece.
    method Build(d: Dialect) returns (out: seq<Token>)
      ensures out == Expression(d, keys, negated, values)
    {
      out := [];
      if |keys| == 0 {
        return;
      }
      var parenthesis := negated && |values| != 0;
      if parenthesis {
        out := out + [LParen];
        out := out + [Value(if d.Postgres? then Arrows(keys) else JsonExtract(PathText(keys)))];
        out := out + [IS_NULL];
        out := out + [OR];
      }
      match d {
        case MySQL => out := out + [Value(JsonUnquote(PathText(keys)))];
        case SQLite => out := out + [Value(CastAsText(PathText(keys)))];
        case Postgres => out := out + [Value(Arrows(keys))];
      }
      if |values| == 0 {
        out := out + [if negated then IS_NULL else IS_NOT_NULL];
      } else if |values| == 1 {
        out := out + [if negated then NE(values[0]) else EQ(values[0])];
      } else {
        out := out + [if negated then NOT_IN(values) else IN(values)];
      }
      if parenthesis {
        out := out + [RParen];
      }
    }
  }

  // ---------------------------------------------------------------------------------------------
  // Selectors.

  datatype Operator = Exists | DoesNotExist | Equals | DoubleEquals | NotEquals | In | NotIn | GreaterThan | LessThan

  datatype Requirement = Requirement(key: string, operator: Operator, values: seq<string>)

  predicate Supported(op: Operator) { !op.GreaterThan? && !op.LessThan? }

  // What labels.NewRequirement admits.
  predicate ValidRequirement(r: Requirement) {
    && Plain(r.key)
    && (r.operator.Exists? || r.operator.DoesNotExist? ==> r.values == [])
    && (r.operator.In? || r.operator.NotIn? ==> |r.values| > 0)
    && (r.operator.Equals? || r.operator.DoubleEquals? || r.operator.NotEquals? || !Supported(r.operator)
        ==> |r.values| == 1)
  }

  // labels.Requirement.Matches; the two numeric operators compare with `greater`.
  predicate Matches(r: Requirement, labels: Labels, greater: (string, string) -> bool)
    requires ValidRequirement(r)
  {
    var has := r.key in labels;
    match r.operator
    case Exists => has
    case DoesNotExist => !has
    case Equals => has && labels[r.key] in r.values
    case DoubleEquals => has && labels[r.key] in r.values
    case In => has && labels[r.key] in r.values
    case NotEquals => !has || labels[r.key] !in r.values
    case NotIn => !has || labels[r.key] !in r.values
    case GreaterThan => has && greater(labels[r.key], r.values[0])
    case LessThan => has && greater(r.values[0], labels[r.key])
  }

  // labels.Nothing() has no requirements and is not selectable.
  datatype Selector = Nothing | Requirements(all: seq<Requirement>)

  predicate ValidSelector(s: Selector) {
    s.Requirements? ==> forall i :: 0 <= i < |s.all| ==> ValidRequirement(s.all[i])
  }

  ghost predicate SelectorMatches(s: Selector, labels: Labels, greater: (string, string) -> bool)
    requires ValidSelector(s)
  {
    s.Requirements? && forall i :: 0 <= i < |s.all| ==> Matches(s.all[i], labels, greater)
  }

  function RequirementTokens(d: Dialect, r: Requirement): seq<Token> {
    Expression(d, ["metadata", "labels", r.key],
               r.operator.DoesNotExist? || r.operator.NotEquals? || r.operator.NotIn?, r.values)
  }

  // gorm joins conditions by AND.
  function Joined(a: seq<Token>, b: seq<Token>): seq<Token> {
    if a == [] then b else if b == [] then a else a + [AND] + b
  }

  lemma JoinedAssociates(a: seq<Token>, b: seq<Token>, c: seq<Token>)
    ensures Joined(Joined(a, b), c) == Joined(a, Joined(b, c))
  {
    if a != [] && b != [] && c != [] {
      assert a + [AND] + b + [AND] + c == a + [AND] + (b + [AND] + c);
    }
  }

  // The conditions of the supported requirements.
  function Where(d: Dialect, all: seq<Requirement>): seq<Token> {
    if all == [] then []
    else if !Supported(all[0].operator) then Where(d, all[1..])
    else Joined(RequirementTokens(d, all[0]), Where(d, all[1..]))
  }

  function Compiled(d: Dialect, s: Selector): seq<Token> {
    if s.Nothing? then [] else Where(d, s.all)
  }

  // The selector part of applyListOptionsToQuery.
  method CompileSelector(d: Dialect, s: Selector) returns (where: seq<Token>)
    requires ValidSelector(s)
    ensures where == Compiled(d, s)
  {
    where := [];
    if s.Nothing? {
      return;
    }
    assert s.all[0..] == s.all;
    for i := 0 to |s.all|
      invariant Joined(where, Where(d, s.all[i..])) == Where(d, s.all)
    {
      var r := s.all[i];
      assert s.all[i..][0] == r && s.all[i..][1..] == s.all[i + 1..];
      var query := new JsonQuery(["metadata", "labels", r.key]);
      match r.operator {
        case Exists => query.Exist();
        case DoesNotExist => query.NotExist();
        case Equals => query.In([r.values[0]]);
        case DoubleEquals => query.In([r.values[0]]);
        case NotEquals => query.NotIn([r.values[0]]);
        case In => query.In(r.values);
        case NotIn => query.NotIn(r.values);
        case _ => continue;
      }
      var tokens := query.Build(d);
      assert |r.values| == 1 ==> r.values == [r.values[0]];
      assert tokens == RequirementTokens(d, r);
      JoinedAssociates(where, tokens, Where(d, s.all[i + 1..]));
      where := if where == [] then tokens else where + [AND] + tokens;
    }
  }

  // ---------------------------------------------------------------------------------------------
  // Meaning.

  function Label(labels: Labels, key: string): Option<string> {
    if key in labels then Some(labels[key]) else None
  }

  lemma OperandText(d: Dialect, doc: Json, key: string)
    requires WellTyped(doc) && Plain(key)
    ensures Text(TextOperand(d, ["metadata", "labels", key]), doc) == Label(LabelsOf(doc), key)
    ensures Text(NullOperand(d, ["metadata", "labels", key]), doc) == Label(LabelsOf(doc), key)
  {
    ExtractLabel(doc, key);
    PathRoundTrip(["metadata", "labels", key]);
  }

  // The truth value of the expression of a requirement: not of two values alone, because a missing
  // label makes a comparison unknown.
  function Verdict(r: Requirement, labels: Labels): Truth {
    var negated := r.operator.DoesNotExist? || r.operator.NotEquals? || r.operator.NotIn?;
    var text := Label(labels, r.key);
    var core := Condition(text, ConditionToken(negated, r.values));
    if negated && r.values != [] then Either(ToTruth(text.None?), core) else core
  }

  lemma VerdictMatches(r: Requirement, labels: Labels, greater: (string, string) -> bool)
    requires ValidRequirement(r) && Supported(r.operator)
    ensures Verdict(r, labels).True? <==> Matches(r, labels, greater)
  {
  }

  lemma CoreParses(doc: Json, operand: Operand, condition: Token, rest: seq<Token>)
    requires IsCondition(condition)
    ensures ParsePrimary(doc, [Value(operand), condition] + rest) ==
            Some((Condition(Text(operand, doc), condition), rest))
  {
    assert ([Value(operand), condition] + rest)[2..] == rest;
  }

  // "(n IS NULL OR v c)" is one primary condition: the parentheses keep a following AND out.
  lemma NegatedParses(doc: Json, n: Operand, v: Operand, c: Token, rest: seq<Token>)
    requires IsCondition(c)
    ensures ParsePrimary(doc, [LParen, Value(n), IS_NULL, OR] + [Value(v), c] + [RParen] + rest) ==
            Some((Either(ToTruth(Text(n, doc).None?), Condition(Text(v, doc), c)), rest))
  {
    var t := [LParen, Value(n), IS_NULL, OR] + [Value(v), c] + [RParen] + rest;
    var close := [RParen] + rest;
    var right := [Value(v), c] + close;
    var tail := [OR] + right;
    var inner := [Value(n), IS_NULL] + tail;
    assert t[1..] == inner;
    CoreParses(doc, v, c, close);
    assert ParseAnd(doc, right) == Some((Condition(Text(v, doc), c), close));
    assert ParseOr(doc, right) == Some((Condition(Text(v, doc), c), close));
    CoreParses(doc, n, IS_NULL, tail);
    assert ParseAnd(doc, inner) == Some((ToTruth(Text(n, doc).None?), tail));
    assert tail[1..] == right;
    assert close[1..] == rest;
  }

  lemma RequirementParses(d: Dialect, doc: Json, r: Requirement, rest: seq<Token>)
    requires WellTyped(doc) && ValidRequirement(r) && Supported(r.operator)
    ensures ParsePrimary(doc, RequirementTokens(d, r) + rest) == Some((Verdict(r, LabelsOf(doc)), rest))
  {
    var keys := ["metadata", "labels", r.key];
    var negated := r.operator.DoesNotExist? || r.operator.NotEquals? || r.operator.NotIn?;
    OperandText(d, doc, r.key);
    if negated && r.values != [] {
      NegatedParses(doc, NullOperand(d, keys), TextOperand(d, keys), ConditionToken(negated, r.values), rest);
    } else {
      CoreParses(doc, TextOperand(d, keys), ConditionToken(negated, r.values), rest);
    }
  }

  ghost predicate SupportedMatch(all: seq<Requirement>, labels: Labels, greater: (string, string) -> bool)
    requires forall i :: 0 <= i < |all| ==> ValidRequirement(all[i])
  {
    forall i :: 0 <= i < |all| && Supported(all[i].operator) ==> Matches(all[i], labels, greater)
  }

  function WhereTruth(all: seq<Requirement>, labels: Labels): Truth {
    if all == [] then True
    else if !Supported(all[0].operator) then WhereTruth(all[1..], labels)
    else Both(Verdict(all[0], labels), WhereTruth(all[1..], labels))
  }

  lemma {:induction false} WhereTruthMatches(all: seq<Requirement>, labels: Labels, greater: (string, string) -> bool)
    requires forall i :: 0 <= i < |all| ==> ValidRequirement(all[i])
    ensures WhereTruth(all, labels).True? <==> SupportedMatch(all, labels, greater)
  {
    if all != [] {
      WhereTruthMatches(all[1..], labels, greater);
      if Supported(all[0].operator) {
        VerdictMatches(all[0], labels, greater);
      }
      assert forall i :: 1 <= i < |all| ==> all[i] == all[1..][i - 1];
    }
  }

  lemma AndParses(doc: Json, tokens: seq<Token>, left: Truth, rest: seq<Token>, right: Truth)
    requires tokens != []
    requires var tail := Joined(tokens, rest)[|tokens|..];
             ParsePrimary(doc, tokens + tail) == Some((left, tail))
    requires if rest == [] then right.True? else ParseAnd(doc, rest) == Some((right, []))
    ensures ParseAnd(doc, Joined(tokens, rest)) == Some((Both(left, right), []))
  {
    var tail := Joined(tokens, rest)[|tokens|..];
    assert Joined(tokens, rest) == tokens + tail;
    assert rest != [] ==> tail == [AND] + rest && tail[1..] == rest;
  }

  lemma {:induction false} WhereParses(d: Dialect, doc: Json, all: seq<Requirement>)
    requires WellTyped(doc) && forall i :: 0 <= i < |all| ==> ValidRequirement(all[i])
    ensures var t := WhereTruth(all, LabelsOf(doc));
            if Where(d, all) == [] then t.True? else ParseAnd(doc, Where(d, all)) == Some((t, []))
  {
    if all != [] {
      WhereParses(d, doc, all[1..]);
      if Supported(all[0].operator) {
        WhereParsesFirst(d, doc, all[0], Where(d, all[1..]), WhereTruth(all[1..], LabelsOf(doc)));
      }
    }
  }

  lemma WhereParsesFirst(d: Dialect, doc: Json, r: Requirement, rest: seq<Token>, right: Truth)
    requires WellTyped(doc) && ValidRequirement(r) && Supported(r.operator)
    requires if rest == [] then right.True? else ParseAnd(doc, rest) == Some((right, []))
    ensures ParseAnd(doc, Joined(RequirementTokens(d, r), rest)) == Some((Both(Verdict(r, LabelsOf(doc)), right), []))
    ensures Joined(RequirementTokens(d, r), rest) != []
  {
    var tokens := RequirementTokens(d, r);
    RequirementParses(d, doc, r, Joined(tokens, rest)[|tokens|..]);
    AndParses(doc, tokens, Verdict(r, LabelsOf(doc)), rest, right);
  }

  // In all three dialects, a row is kept exactly when its labels satisfy every requirement with a
  // supported operator, with missing labels as NULL and the whole clause read by precedence.
  lemma SelectorKeeps(d: Dialect, doc: Json, s: Selector, greater: (string, string) -> bool)
    requires WellTyped(doc) && ValidSelector(s)
    ensures Keeps(doc, Compiled(d, s)) <==>
            s.Nothing? || SupportedMatch(s.all, LabelsOf(doc), greater)
  {
    if s.Requirements? {
      WhereParses(d, doc, s.all);
      WhereTruthMatches(s.all, LabelsOf(doc), greater);
    }
  }

  // A selector over the six operators is compiled exactly; with others present, rows are only added.
  lemma SelectorIsExact(d: Dialect, doc: Json, s: Selector, greater: (string, string) -> bool)
    requires WellTyped(doc) && ValidSelector(s)
    ensures SelectorMatches(s, LabelsOf(doc), greater) ==> Keeps(doc, Compiled(d, s))
    ensures s.Requirements? && (forall i :: 0 <= i < |s.all| ==> Supported(s.all[i].operator)) ==>
              (Keeps(doc, Compiled(d, s)) <==> SelectorMatches(s, LabelsOf(doc), greater))
  {
    SelectorKeeps(d, doc, s, greater);
  }

  // Where the compiled clause is not the selector: a row is kept although it does not match exactly
  // when the selector is Nothing, or all supported requirements match and an unsupported one does not.
  lemma SelectorOverselects(d: Dialect, doc: Json, s: Selector, greater: (string, string) -> bool)
    requires WellTyped(doc) && ValidSelector(s)
    ensures Keeps(doc, Compiled(d, s)) && !SelectorMatches(s, LabelsOf(doc), greater) <==>
            || s.Nothing?
            || (&& SupportedMatch(s.all, LabelsOf(doc), greater)
                && exists i :: 0 <= i < |s.all| && !Supported(s.all[i].operator)
                    && !Matches(s.all[i], LabelsOf(doc), greater))
  {
    SelectorKeeps(d, doc, s, greater);
  }
}
