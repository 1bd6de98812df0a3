/** internal/model/template.go: Render replaces one variable after the other, in whatever order the
    map yields them. */
module Templates {
  import opened Basics
  import opened Model

  // ---------------------------------------------------------------- what Render does

  /** strings.ReplaceAll for a pattern that is not empty: leftmost matches that do not overlap. */
  function ReplaceAll(s: string, pattern: string, value: string): string
    requires pattern != ""
  {
    if s == "" then ""
    else if pattern <= s then value + ReplaceAll(s[|pattern|..], pattern, value)
    else [s[0]] + ReplaceAll(s[1..], pattern, value)
  }

  function Pattern(key: string): string { "{{" + key + "}}" }

  function ReplaceInOrder(s: string, vars: map<string, string>, order: seq<string>): string
    requires forall k | 0 <= k < |order| :: order[k] in vars
  {
    if order == [] then s else
      var n := |order| - 1;
      ReplaceAll(ReplaceInOrder(s, vars, order[..n]), Pattern(order[n]), vars[order[n]])
  }

  /** An order in which a loop over the map may visit it. */
  ghost predicate IsOrder(order: seq<string>, vars: map<string, string>) {
    && (forall k | 0 <= k < |order| :: order[k] in vars)
    && Distinct(order)
    && (forall key | key in vars :: key in order)
  }

  class Template {
    const name: string
    const channel: Channel
    const subject: Option<string>
    const body: string

    constructor (name: string, channel: Channel, subject: Option<string>, body: string)
      ensures this.name == name && this.channel == channel && this.subject == subject && this.body == body
    {
      this.name, this.channel, this.subject, this.body := name, channel, subject, body;
    }

    method Render(variables: map<string, string>) returns (content: string, rendered: Option<string>)
      ensures exists order :: IsOrder(order, variables) && content == ReplaceInOrder(body, variables, order)
      ensures rendered.Some? <==> subject.Some?
      ensures rendered.Some? ==>
                exists order :: IsOrder(order, variables) && rendered.value == ReplaceInOrder(subject.value, variables, order)
      ensures CleanKeys(variables) && NoOpening(variables) ==>
                && (!CanReopen(body) ==> content == OnePass(body, variables))
                && (subject.Some? && !CanReopen(subject.value) ==> rendered.value == OnePass(subject.value, variables))
    {
      ghost var order;
      content, order := ReplaceVariables(body, variables);
      if CleanKeys(variables) && NoOpening(variables) && !CanReopen(body) {
        RenderIsSimultaneous(body, variables, order);
      }
      rendered := None;
      if subject.Some? {
        var s;
        s, order := ReplaceVariables(subject.value, variables);
        if CleanKeys(variables) && NoOpening(variables) && !CanReopen(subject.value) {
          RenderIsSimultaneous(subject.value, variables, order);
        }
        rendered := Some(s);
      }
    }
  }

  /** `for key, val := range variables`: any key that is left may come next. */
  method ReplaceVariables(text: string, variables: map<string, string>) returns (s: string, ghost order: seq<string>)
    ensures IsOrder(order, variables) && s == ReplaceInOrder(text, variables, order)
  {
    s, order := text, [];
    var left := variables.Keys;
    while left != {}
      invariant forall k | 0 <= k < |order| :: order[k] in variables && order[k] !in left
      invariant forall a, b | 0 <= a < b < |order| :: order[a] != order[b]
      invariant forall key | key in variables :: key in order || key in left
      invariant left <= variables.Keys
      invariant s == ReplaceInOrder(text, variables, order)
      decreases |left|
    {
      var key :| key in left;
      s := ReplaceAll(s, Pattern(key), variables[key]);
      assert (order + [key])[..|order|] == order;
      order := order + [key];
      left := left - {key};
    }
  }

  // ---------------------------------------------------------------- what it is meant to do

  predicate IsBrace(c: char) { c == '{' || c == '}' }

  predicate BraceFree(s: string) { forall i | 0 <= i < |s| :: !IsBrace(s[i]) }

  /** How far `s` goes without a brace. */
  function Plain(s: string): (n: nat)
    ensures n <= |s| && BraceFree(s[..n]) && (n < |s| ==> IsBrace(s[n]))
  {
    if s == "" || IsBrace(s[0]) then 0 else 1 + Plain(s[1..])
  }

  /** The length of the placeholder's name, if `s` starts with a placeholder. */
  function Placeholder(s: string): (n: Option<nat>)
    ensures n.Some? ==> n.value + 4 <= |s| && BraceFree(s[2..2 + n.value]) && s[..n.value + 4] == Pattern(s[2..2 + n.value])
  {
    if "{{" <= s then
      var n := Plain(s[2..]);
      if "}}" <= s[2 + n..] then
        assert s[2..][..n] == s[2..2 + n] && s[2 + n] == '}' && s[3 + n] == '}';
        Some(n)
      else None
    else None
  }

  /** One pass from left to right: every placeholder is replaced by its variable's value, or kept
      if there is no such variable; nothing that a value brings in is looked at again. */
  function OnePass(s: string, vars: map<string, string>): string {
    if s == "" then ""
    else match Placeholder(s)
      case Some(n) => (if s[2..2 + n] in vars then vars[s[2..2 + n]] else s[..n + 4]) + OnePass(s[n + 4..], vars)
      case None => [s[0]] + OnePass(s[1..], vars)
  }

  // ---------------------------------------------------------------- tokens

  datatype Token = Ch(c: char) | Slot(key: string)

  function Scan(s: string): seq<Token> {
    if s == "" then []
    else match Placeholder(s)
      case Some(n) => [Slot(s[2..2 + n])] + Scan(s[n + 4..])
      case None => [Ch(s[0])] + Scan(s[1..])
  }

  function PrintOne(token: Token): string {
    if token.Ch? then [token.c] else Pattern(token.key)
  }

  function Print(tokens: seq<Token>): string {
    if tokens == [] then "" else PrintOne(tokens[0]) + Print(tokens[1..])
  }

  function Chars(s: string): seq<Token> { seq(|s|, i requires 0 <= i < |s| => Ch(s[i])) }

  function SubstOne(token: Token, vars: map<string, string>): seq<Token> {
    if token.Slot? && token.key in vars then Chars(vars[token.key]) else [token]
  }

  /** Simultaneous substitution. */
  function Subst(tokens: seq<Token>, vars: map<string, string>): seq<Token> {
    if tokens == [] then [] else SubstOne(tokens[0], vars) + Subst(tokens[1..], vars)
  }

  /** Without its placeholders the text has no two opening braces in a row; `open` says that one
      has just come. */
  predicate Tidy(tokens: seq<Token>, open: bool) {
    tokens == [] ||
      match tokens[0]
      case Ch(c) => !(open && c == '{') && Tidy(tokens[1..], c == '{')
      case Slot(key) => BraceFree(key) && Tidy(tokens[1..], open)
  }

  predicate StrayFree(s: string) { Tidy(Scan(s), false) }

  // After two opening braces in a row, replacements may complete a placeholder: the names in `gone`
  // have to be empty for that, and `key` is what the text has of the placeholder's name.

  predicate Closes(tokens: seq<Token>, gone: set<string>, key: string) {
    tokens != [] &&
      match tokens[0]
      case Ch(c) => c == '}'
      case Slot(x) => x != key && (x !in gone || Closes(tokens[1..], gone, key))
  }

  predicate Completes(tokens: seq<Token>, gone: set<string>, key: string) {
    tokens != [] &&
      match tokens[0]
      case Ch(c) =>
        if c == '}' then key !in gone && Closes(tokens[1..], gone, key)
        else c != '{' && Completes(tokens[1..], gone, key + [c])
      case Slot(x) => x !in gone || Completes(tokens[1..], gone, key)
  }

  predicate ReopensAfter(tokens: seq<Token>, gone: set<string>) {
    tokens != [] &&
      match tokens[0]
      case Ch(c) => c == '{' && Completes(tokens[1..], gone, "")
      case Slot(x) => ReopensAfter(tokens[1..], gone + {x})
  }

  predicate Reopens(tokens: seq<Token>) {
    tokens != [] && ((tokens[0] == Ch('{') && ReopensAfter(tokens[1..], {})) || Reopens(tokens[1..]))
  }

  /** The text has two opening braces, with at most placeholders between them, that replacements can
      make the start of a placeholder for a name whose turn is still to come. */
  predicate CanReopen(s: string) { Reopens(Scan(s)) }

  predicate CleanSlots(tokens: seq<Token>) { forall i | 0 <= i < |tokens| :: tokens[i].Slot? ==> BraceFree(tokens[i].key) }

  predicate CleanKeys(vars: map<string, string>) { forall key | key in vars :: BraceFree(key) }

  predicate NoOpening(vars: map<string, string>) { forall key | key in vars :: '{' !in vars[key] }

  // ---------------------------------------------------------------- printing and scanning

  lemma {:induction false} PrintScan(s: string)
    ensures Print(Scan(s)) == s
  {
    if s != "" {
      match Placeholder(s) {
        case Some(n) =>
          PrintScan(s[n + 4..]);
          assert s == s[..n + 4] + s[n + 4..];
        case None =>
          PrintScan(s[1..]);
          assert s == [s[0]] + s[1..];
      }
    }
  }

  lemma {:induction false} PrintConcat(a: seq<Token>, b: seq<Token>)
    ensures Print(a + b) == Print(a) + Print(b)
  {
    if a == [] {
      assert a + b == b;
    } else {
      assert (a + b)[1..] == a[1..] + b;
      PrintConcat(a[1..], b);
    }
  }

  lemma {:induction false} PrintChars(s: string)
    ensures Print(Chars(s)) == s
  {
    if s != "" {
      assert Chars(s)[1..] == Chars(s[1..]);
      PrintChars(s[1..]);
    }
  }

  /** The reference semantics is simultaneous substitution for the placeholders. */
  lemma {:induction false} OnePassIsSubst(s: string, vars: map<string, string>)
    ensures OnePass(s, vars) == Print(Subst(Scan(s), vars))
  {
    if s != "" {
      var tokens := Scan(s);
      PrintConcat(SubstOne(tokens[0], vars), Subst(tokens[1..], vars));
      PrintOneSubst(tokens[0], vars);
      match Placeholder(s) {
        case Some(n) => OnePassIsSubst(s[n + 4..], vars);
        case None => OnePassIsSubst(s[1..], vars);
      }
    }
  }

  lemma PrintOneSubst(token: Token, vars: map<string, string>)
    ensures Print(SubstOne(token, vars)) == if token.Slot? && token.key in vars then vars[token.key] else PrintOne(token)
  {
    if token.Slot? && token.key in vars {
      PrintChars(vars[token.key]);
    } else {
      assert Print([token]) == PrintOne(token) + Print([]) == PrintOne(token);
    }
  }

  // ---------------------------------------------------------------- one replacement

  /** Text in which no match starts is passed over. */
  lemma {:induction false} PassOver(u: string, rest: string, pattern: string, value: string)
    requires pattern != "" && forall p | 0 <= p < |u| :: !(pattern <= (u + rest)[p..])
    ensures ReplaceAll(u + rest, pattern, value) == u + ReplaceAll(rest, pattern, value)
  {
    if u == "" {
      assert u + rest == rest;
    } else {
      assert (u + rest)[0..] == u + rest;
      assert (u + rest)[1..] == u[1..] + rest;
      forall p | 0 <= p < |u[1..]| ensures !(pattern <= (u[1..] + rest)[p..]) {
        assert (u[1..] + rest)[p..] == (u + rest)[p + 1..];
      }
      PassOver(u[1..], rest, pattern, value);
    }
  }

  lemma Differs(pattern: string, text: string, i: nat)
    requires i < |pattern| && (i < |text| ==> pattern[i] != text[i])
    ensures !(pattern <= text)
  {
  }

  /** Another key's placeholder contains no match. */
  lemma OtherSlot(other: string, key: string, rest: string, p: nat)
    requires BraceFree(other) && BraceFree(key) && other != key && p < |Pattern(other)|
    ensures !(Pattern(key) <= (Pattern(other) + rest)[p..])
  {
    var text := (Pattern(other) + rest)[p..];
    if p >= 2 {
      Differs(Pattern(key), text, 0);
    } else if p == 1 {
      Differs(Pattern(key), text, 1);
    } else if |key| == |other| {
      var i :| 0 <= i < |key| && key[i] != other[i];
      Differs(Pattern(key), text, 2 + i);
    } else {
      Differs(Pattern(key), text, 2 + if |key| < |other| then |key| else |other|);
    }
  }

  /** A text that starts with no placeholder starts with no match. */
  lemma NoPlaceholder(s: string, key: string)
    requires Placeholder(s).None? && BraceFree(key)
    ensures !(Pattern(key) <= s)
  {
    if Pattern(key) <= s {
      assert s == Pattern(key) + s[|key| + 4..];
      ScanSlot(key, s[|key| + 4..]);
    }
  }

  lemma ReplaceSlot(name: string, rest: string, key: string, value: string)
    requires BraceFree(name) && BraceFree(key)
    ensures ReplaceAll(Pattern(name) + rest, Pattern(key), value)
            == (if name == key then value else Pattern(name)) + ReplaceAll(rest, Pattern(key), value)
  {
    if name == key {
      assert Pattern(key) <= Pattern(key) + rest && (Pattern(key) + rest)[|Pattern(key)|..] == rest;
    } else {
      forall p: nat | p < |Pattern(name)| ensures !(Pattern(key) <= (Pattern(name) + rest)[p..]) { OtherSlot(name, key, rest, p); }
      PassOver(Pattern(name), rest, Pattern(key), value);
    }
  }

  /** On every text, replacing one variable is substituting its placeholders. */
  lemma {:induction false} ReplaceIsSubst(s: string, key: string, value: string)
    requires BraceFree(key)
    ensures ReplaceAll(s, Pattern(key), value) == Print(Subst(Scan(s), map[key := value]))
  {
    if s != "" {
      var one := map[key := value];
      PrintSubstHead(Scan(s), one);
      match Placeholder(s) {
        case Some(n) =>
          ReplaceIsSubst(s[n + 4..], key, value);
          assert s == Pattern(s[2..2 + n]) + s[n + 4..];
          ReplaceSlot(s[2..2 + n], s[n + 4..], key, value);
        case None =>
          ReplaceIsSubst(s[1..], key, value);
          NoPlaceholder(s, key);
      }
    }
  }

  // ---------------------------------------------------------------- all replacements

  lemma PrintSubstHead(tokens: seq<Token>, vars: map<string, string>)
    requires tokens != []
    ensures Print(Subst(tokens, vars))
            == (if tokens[0].Slot? && tokens[0].key in vars then vars[tokens[0].key] else PrintOne(tokens[0]))
               + Print(Subst(tokens[1..], vars))
  {
    PrintConcat(SubstOne(tokens[0], vars), Subst(tokens[1..], vars));
    PrintOneSubst(tokens[0], vars);
  }

  predicate Emptied(vars: map<string, string>, gone: set<string>) { forall x | x in gone :: x in vars && vars[x] == "" }

  lemma {:induction false} CannotClose(tokens: seq<Token>, gone: set<string>, key: string, vars: map<string, string>)
    requires !Closes(tokens, gone, key) && key !in vars && Emptied(vars, gone)
    ensures !("}" <= Print(Subst(tokens, vars)))
    decreases |tokens|
  {
    if tokens != [] {
      PrintSubstHead(tokens, vars);
      var text, tail := Print(Subst(tokens, vars)), Print(Subst(tokens[1..], vars));
      if tokens[0].Slot? && tokens[0].key != key {
        CannotClose(tokens[1..], gone, key, vars);
        assert text == tail;
      } else {
        Differs("}", text, 0);
      }
    }
  }

  lemma {:induction false} CannotComplete(tokens: seq<Token>, gone: set<string>, key: string, rest: string, vars: map<string, string>)
    requires !Completes(tokens, gone, key) && BraceFree(rest) && key + rest !in vars && Emptied(vars, gone)
    ensures !(rest + "}}" <= Print(Subst(tokens, vars)))
    decreases |tokens|
  {
    if tokens != [] {
      var text, tail := Print(Subst(tokens, vars)), Print(Subst(tokens[1..], vars));
      PrintSubstHead(tokens, vars);
      if tokens[0].Slot? {
        CannotComplete(tokens[1..], gone, key, rest, vars);
        assert text == tail;
      } else if tokens[0].c == '}' && rest == "" {
        assert key + rest == key;
        CannotClose(tokens[1..], gone, key, vars);
        Shift('}', "}", tail);
      } else if rest != "" && rest[0] == tokens[0].c {
        assert key + [rest[0]] + rest[1..] == key + rest;
        CannotComplete(tokens[1..], gone, key + [rest[0]], rest[1..], vars);
        Shift(rest[0], rest[1..] + "}}", tail);
        assert [rest[0]] + (rest[1..] + "}}") == rest + "}}";
      } else {
        Differs(rest + "}}", text, 0);
      }
    }
  }

  lemma Shift(c: char, a: string, b: string)
    ensures [c] + a <= [c] + b <==> a <= b
  {
    if a <= b {
      assert ([c] + b)[..|a| + 1] == [c] + b[..|a|];
    }
    if [c] + a <= [c] + b {
      assert a == ([c] + a)[1..] && b == ([c] + b)[1..];
      assert forall i | 0 <= i < |a| :: a[i] == ([c] + a)[i + 1] == ([c] + b)[i + 1] == b[i];
    }
  }

  lemma {:induction false} CannotReopen(tokens: seq<Token>, gone: set<string>, key: string, vars: map<string, string>)
    requires !ReopensAfter(tokens, gone) && BraceFree(key) && key !in vars && Emptied(vars, gone) && NoOpening(vars)
    ensures !("{" + key + "}}" <= Print(Subst(tokens, vars)))
    decreases |tokens|
  {
    if tokens != [] {
      var text, tail, pattern := Print(Subst(tokens, vars)), Print(Subst(tokens[1..], vars)), "{" + key + "}}";
      PrintSubstHead(tokens, vars);
      if tokens[0].Slot? && tokens[0].key in vars {
        var value := vars[tokens[0].key];
        if value == "" {
          CannotReopen(tokens[1..], gone + {tokens[0].key}, key, vars);
          assert text == tail;
        } else {
          assert value[0] in value;
          Differs(pattern, text, 0);
        }
      } else if tokens[0].Slot? {
        Differs(pattern, text, 1);
      } else if tokens[0].c == '{' {
        assert "" + key == key;
        CannotComplete(tokens[1..], gone, "", key, vars);
        Shift('{', key + "}}", tail);
        assert ['{'] + (key + "}}") == pattern;
      } else {
        Differs(pattern, text, 0);
      }
    }
  }

  /** While some variables are substituted, replacing one more is substituting it too. */
  lemma {:induction false} ReplaceOneMore(tokens: seq<Token>, vars: map<string, string>, key: string, value: string)
    requires !Reopens(tokens) && CleanSlots(tokens) && NoOpening(vars) && BraceFree(key) && key !in vars
    ensures ReplaceAll(Print(Subst(tokens, vars)), Pattern(key), value) == Print(Subst(tokens, vars[key := value]))
    decreases |tokens|
  {
    if tokens != [] {
      var (token, tail) := (tokens[0], Print(Subst(tokens[1..], vars)));
      assert CleanSlots(tokens[1..]);
      ReplaceOneMore(tokens[1..], vars, key, value);
      PrintSubstHead(tokens, vars);
      PrintSubstHead(tokens, vars[key := value]);
      if token == Slot(key) {
        assert (Pattern(key) + tail)[|Pattern(key)|..] == tail;
      } else {
        NoMatchAt(tokens, vars, key);
        PassOver(Shown(token, vars), tail, Pattern(key), value);
      }
    }
  }

  function Shown(token: Token, vars: map<string, string>): string {
    if token.Slot? && token.key in vars then vars[token.key] else PrintOne(token)
  }

  lemma NoMatchAt(tokens: seq<Token>, vars: map<string, string>, key: string)
    requires tokens != [] && tokens[0] != Slot(key)
    requires !Reopens(tokens) && CleanSlots(tokens) && NoOpening(vars) && BraceFree(key) && key !in vars
    ensures var tail := Print(Subst(tokens[1..], vars));
            forall p | 0 <= p < |Shown(tokens[0], vars)| :: !(Pattern(key) <= (Shown(tokens[0], vars) + tail)[p..])
  {
    var (token, tail) := (tokens[0], Print(Subst(tokens[1..], vars)));
    var shown := Shown(token, vars);
    forall p: nat | p < |shown| ensures !(Pattern(key) <= (shown + tail)[p..]) {
      if token.Slot? && token.key in vars {
        NoMatchInValue(shown, tail, key, p);
      } else if token.Slot? {
        OtherSlot(token.key, key, tail, p);
      } else {
        NoMatchAtChar(tokens, vars, key);
        assert (shown + tail)[p..] == shown + tail;
      }
    }
  }

  lemma NoMatchInValue(value: string, tail: string, key: string, p: nat)
    requires '{' !in value && p < |value|
    ensures !(Pattern(key) <= (value + tail)[p..])
  {
    assert value[p] in value;
    Differs(Pattern(key), (value + tail)[p..], 0);
  }

  lemma NoMatchAtChar(tokens: seq<Token>, vars: map<string, string>, key: string)
    requires tokens != [] && tokens[0].Ch?
    requires !Reopens(tokens) && CleanSlots(tokens) && NoOpening(vars) && BraceFree(key) && key !in vars
    ensures !(Pattern(key) <= PrintOne(tokens[0]) + Print(Subst(tokens[1..], vars)))
  {
    var (c, tail) := (tokens[0].c, Print(Subst(tokens[1..], vars)));
    if c == '{' {
      CannotReopen(tokens[1..], {}, key, vars);
      Shift('{', "{" + key + "}}", tail);
      assert ['{'] + ("{" + key + "}}") == Pattern(key);
    } else {
      Differs(Pattern(key), [c] + tail, 0);
    }
  }

  lemma {:induction false} SubstConcat(a: seq<Token>, b: seq<Token>, vars: map<string, string>)
    ensures Subst(a + b, vars) == Subst(a, vars) + Subst(b, vars)
  {
    if a == [] {
      assert a + b == b;
    } else {
      assert (a + b)[1..] == a[1..] + b;
      SubstConcat(a[1..], b, vars);
    }
  }

  lemma {:induction false} SubstChars(s: string, vars: map<string, string>)
    ensures Subst(Chars(s), vars) == Chars(s)
  {
    if s != "" {
      assert Chars(s)[1..] == Chars(s[1..]);
      SubstChars(s[1..], vars);
    }
  }

  /** A value brings in no placeholders, so one more variable can wait its turn. */
  lemma {:induction false} SubstLater(tokens: seq<Token>, vars: map<string, string>, key: string, value: string)
    requires key !in vars
    ensures Subst(Subst(tokens, vars), map[key := value]) == Subst(tokens, vars[key := value])
  {
    if tokens != [] {
      var one := SubstOne(tokens[0], vars);
      SubstLater(tokens[1..], vars, key, value);
      SubstConcat(one, Subst(tokens[1..], vars), map[key := value]);
      OneLater(tokens[0], vars, key, value);
    }
  }

  lemma OneLater(token: Token, vars: map<string, string>, key: string, value: string)
    requires key !in vars
    ensures Subst(SubstOne(token, vars), map[key := value]) == SubstOne(token, vars[key := value])
  {
    if token.Slot? && token.key in vars {
      SubstChars(vars[token.key], map[key := value]);
    } else {
      assert [token][1..] == [];
      assert SubstOne(token, map[key := value]) + [] == SubstOne(token, map[key := value]);
    }
  }

  lemma {:induction false} SubstNothing(tokens: seq<Token>)
    ensures Subst(tokens, map[]) == tokens
  {
    if tokens != [] { SubstNothing(tokens[1..]); }
  }

  /** The variables that have had their turn. */
  function Restrict(vars: map<string, string>, order: seq<string>): map<string, string>
    requires forall k | 0 <= k < |order| :: order[k] in vars
  {
    map key | key in vars && key in order :: vars[key]
  }

  lemma RestrictMore(vars: map<string, string>, order: seq<string>)
    requires order != [] && (forall k | 0 <= k < |order| :: order[k] in vars) && Distinct(order)
    ensures var (front, key) := (order[..|order| - 1], order[|order| - 1]);
            key !in Restrict(vars, front) && Restrict(vars, front)[key := vars[key]] == Restrict(vars, order)
  {
    assert order == order[..|order| - 1] + [order[|order| - 1]];
  }

  lemma {:induction false} ReplaceInOrderIsSubst(tokens: seq<Token>, vars: map<string, string>, order: seq<string>)
    requires !Reopens(tokens) && CleanSlots(tokens) && CleanKeys(vars) && NoOpening(vars)
    requires (forall k | 0 <= k < |order| :: order[k] in vars) && Distinct(order)
    ensures ReplaceInOrder(Print(tokens), vars, order) == Print(Subst(tokens, Restrict(vars, order)))
  {
    if order == [] {
      SubstNothing(tokens);
      assert Restrict(vars, order) == map[];
    } else {
      var n := |order| - 1;
      var (front, key) := (order[..n], order[n]);
      ReplaceInOrderIsSubst(tokens, vars, front);
      RestrictMore(vars, order);
      ReplaceOneMore(tokens, Restrict(vars, front), key, vars[key]);
    }
  }

  lemma {:induction false} ScanIsClean(s: string)
    ensures CleanSlots(Scan(s))
  {
    if s != "" {
      match Placeholder(s) {
        case Some(n) => ScanIsClean(s[n + 4..]);
        case None => ScanIsClean(s[1..]);
      }
    }
  }

  /** Whatever order the map is visited in, rendering is the one-pass simultaneous substitution:
      placeholders of known variables get their values, all others stay as they are. It needs names
      without braces, values without an opening brace, and a text that cannot reopen. */
  lemma RenderIsSimultaneous(s: string, vars: map<string, string>, order: seq<string>)
    requires !CanReopen(s) && CleanKeys(vars) && NoOpening(vars) && IsOrder(order, vars)
    ensures ReplaceInOrder(s, vars, order) == OnePass(s, vars)
  {
    PrintScan(s);
    ScanIsClean(s);
    ReplaceInOrderIsSubst(Scan(s), vars, order);
    assert Restrict(vars, order) == vars;
    OnePassIsSubst(s, vars);
  }

  /** Without two opening braces in a row a text cannot reopen. */
  lemma {:induction false} TidyNeverReopens(tokens: seq<Token>, open: bool, gone: set<string>)
    requires Tidy(tokens, open)
    ensures !Reopens(tokens) && (open ==> !ReopensAfter(tokens, gone))
    decreases |tokens|
  {
    if tokens != [] {
      if tokens[0].Slot? {
        TidyNeverReopens(tokens[1..], open, gone + {tokens[0].key});
      } else {
        TidyNeverReopens(tokens[1..], tokens[0].c == '{', {});
      }
    }
  }

  lemma StrayFreeNeverReopens(s: string)
    requires StrayFree(s)
    ensures !CanReopen(s)
  {
    TidyNeverReopens(Scan(s), false, {});
  }

  // ---------------------------------------------------------------- texts that can reopen

  lemma LongerThanAll(names: set<string>) returns (n: nat)
    ensures forall x | x in names :: |x| < n
  {
    n := 0;
    if names != {} {
      var x :| x in names;
      var m := LongerThanAll(names - {x});
      n := if |x| < m then m else |x| + 1;
    }
  }

  function Empties(gone: set<string>): map<string, string> { map x | x in gone :: "" }

  predicate CleanNames(names: set<string>) { forall x | x in names :: BraceFree(x) }

  /** A letter that the values below do not use. */
  const MARKER := 'y'

  predicate Unmarked(vars: map<string, string>) { forall key | key in vars :: MARKER !in vars[key] }

  /** Values that empty the names in `gone`, and leave `key` without a value. */
  ghost predicate Prepares(vars: map<string, string>, gone: set<string>, key: string) {
    Emptied(vars, gone) && key !in vars && CleanKeys(vars) && NoOpening(vars) && Unmarked(vars)
  }

  lemma {:induction false} CloseWith(tokens: seq<Token>, gone: set<string>, key: string)
    returns (vars: map<string, string>, rest: seq<Token>)
    requires Closes(tokens, gone, key) && key !in gone && CleanSlots(tokens) && CleanNames(gone)
    ensures Prepares(vars, gone, key) && Subst(tokens, vars) == [Ch('}')] + rest
    decreases |tokens|
  {
    if tokens[0].Slot? && tokens[0].key in gone {
      vars, rest := CloseWith(tokens[1..], gone, key);
      assert SubstOne(tokens[0], vars) == [];
    } else {
      vars := if tokens[0].Slot? then Empties(gone)[tokens[0].key := "}"] else Empties(gone);
      rest := Subst(tokens[1..], vars);
      assert SubstOne(tokens[0], vars) == [Ch('}')];
    }
  }

  lemma {:induction false} CompleteWith(tokens: seq<Token>, gone: set<string>, key: string)
    returns (vars: map<string, string>, more: string, rest: seq<Token>)
    requires Completes(tokens, gone, key) && BraceFree(key) && CleanSlots(tokens) && CleanNames(gone)
    ensures Prepares(vars, gone, key + more) && BraceFree(more)
    ensures Subst(tokens, vars) == Chars(more + "}}") + rest
    decreases |tokens|
  {
    if tokens[0].Slot? && tokens[0].key in gone {
      vars, more, rest := CompleteWith(tokens[1..], gone, key);
      assert SubstOne(tokens[0], vars) == [];
    } else if tokens[0].Slot? {
      var n := LongerThanAll(gone + {tokens[0].key});
      more := seq(n, _ => 'x');
      vars := Empties(gone)[tokens[0].key := more + "}}"];
      rest := Subst(tokens[1..], vars);
    } else if tokens[0].c == '}' {
      more := "";
      vars, rest := CloseWith(tokens[1..], gone, key);
      assert key + more == key && Chars("}}") == [Ch('}')] + [Ch('}')];
    } else {
      vars, more, rest := CompleteWith(tokens[1..], gone, key + [tokens[0].c]);
      assert key + [tokens[0].c] + more == key + ([tokens[0].c] + more);
      assert [tokens[0]] + Chars(more + "}}") == Chars([tokens[0].c] + more + "}}");
      more := [tokens[0].c] + more;
    }
  }

  lemma {:induction false} ReopenAfterWith(tokens: seq<Token>, gone: set<string>)
    returns (vars: map<string, string>, key: string, rest: seq<Token>)
    requires ReopensAfter(tokens, gone) && CleanSlots(tokens) && CleanNames(gone)
    ensures Prepares(vars, gone, key) && BraceFree(key)
    ensures Subst(tokens, vars) == Chars("{" + key + "}}") + rest
    decreases |tokens|
  {
    if tokens[0].Slot? {
      vars, key, rest := ReopenAfterWith(tokens[1..], gone + {tokens[0].key});
      assert tokens[0].key in gone + {tokens[0].key};
      assert SubstOne(tokens[0], vars) == [];
    } else {
      vars, key, rest := CompleteWith(tokens[1..], gone, "");
      assert "" + key == key;
      assert [Ch('{')] + Chars(key + "}}") == Chars("{" + key + "}}");
    }
  }

  /** Some values complete a placeholder for a name that has no value yet. */
  lemma {:induction false} ReopenWith(tokens: seq<Token>)
    returns (vars: map<string, string>, key: string, before: seq<Token>, rest: seq<Token>)
    requires Reopens(tokens) && CleanSlots(tokens)
    ensures Prepares(vars, {}, key) && BraceFree(key)
    ensures Subst(tokens, vars) == before + Chars(Pattern(key)) + rest
    decreases |tokens|
  {
    if tokens[0] == Ch('{') && ReopensAfter(tokens[1..], {}) {
      vars, key, rest := ReopenAfterWith(tokens[1..], {});
      before := [];
      assert [Ch('{')] + Chars("{" + key + "}}") == Chars(Pattern(key));
    } else {
      vars, key, before, rest := ReopenWith(tokens[1..]);
      before := SubstOne(tokens[0], vars) + before;
    }
  }

  /** How much of a text is left when the placeholders of one name are erased. */
  function Left(s: string, key: string): nat { |ReplaceAll(s, Pattern(key), "")| }

  lemma {:induction false} TooShort(s: string, key: string)
    requires |s| < |Pattern(key)|
    ensures Left(s, key) == |s|
  {
    if s != "" { TooShort(s[1..], key); }
  }

  /** A placeholder does not overlap another one of the same name. */
  lemma NoOverlap(u: string, w: string, key: string, p: nat)
    requires BraceFree(key) && 0 < |u| && Pattern(key) <= u + w && |u| + p < |Pattern(key)|
    ensures p <= |w| && !(Pattern(key) <= w[p..])
  {
    var pattern := Pattern(key);
    var shift := |u| + p;
    assert |pattern| <= |u| + |w|;
    assert pattern[shift] == (u + w)[shift] == w[p];
    if shift == 1 {
      assert pattern[2] == (u + w)[2] == w[p + 1];
      Differs(pattern, w[p..], 1);
    } else {
      assert pattern[shift] != '{';
      Differs(pattern, w[p..], 0);
    }
  }

  /** Where one text ends and another starts, erasing can only find more. */
  lemma {:induction false} LeftOfBoth(u: string, w: string, key: string)
    requires BraceFree(key)
    ensures Left(u + w, key) <= Left(u, key) + Left(w, key)
    decreases |u|
  {
    var pattern := Pattern(key);
    if u == "" {
      assert u + w == w;
    } else if pattern <= u {
      assert u + w == pattern + (u[|pattern|..] + w) && pattern <= u + w;
      assert (u + w)[|pattern|..] == u[|pattern|..] + w;
      LeftOfBoth(u[|pattern|..], w, key);
    } else if pattern <= u + w {
      LeftAcross(u, w, key);
    } else {
      assert (u + w)[1..] == u[1..] + w;
      LeftOfBoth(u[1..], w, key);
    }
  }

  lemma LeftAcross(u: string, w: string, key: string)
    requires BraceFree(key) && u != "" && Pattern(key) <= u + w && !(Pattern(key) <= u)
    ensures Left(u + w, key) <= Left(w, key)
  {
    var pattern := Pattern(key);
    var j := |pattern| - |u|;
    assert (u + w)[|pattern|..] == w[j..];
    assert w == w[..j] + w[j..];
    forall p: nat | p < |w[..j]| ensures !(pattern <= (w[..j] + w[j..])[p..]) { NoOverlap(u, w, key, p); }
    PassOver(w[..j], w[j..], pattern, "");
  }

  lemma LeftOfOne(token: Token, key: string)
    ensures Left(PrintOne(token), key) <= |Print(SubstOne(token, map[key := ""]))|
  {
    PrintOneSubst(token, map[key := ""]);
    if token == Slot(key) {
      ReplaceWhole(Pattern(key), "");
    } else {
      LeftAtMost(PrintOne(token), key);
    }
  }

  lemma {:induction false} LeftAtMost(s: string, key: string)
    ensures Left(s, key) <= |s|
    decreases |s|
  {
    if s != "" {
      if Pattern(key) <= s { LeftAtMost(s[|Pattern(key)|..], key); } else { LeftAtMost(s[1..], key); }
    }
  }

  lemma {:induction false} LeftOfTokens(tokens: seq<Token>, key: string)
    requires BraceFree(key)
    ensures Left(Print(tokens), key) <= |Print(Subst(tokens, map[key := ""]))|
  {
    if tokens != [] {
      LeftOfTokens(tokens[1..], key);
      LeftOfOne(tokens[0], key);
      LeftOfBoth(PrintOne(tokens[0]), Print(tokens[1..]), key);
      PrintConcat(SubstOne(tokens[0], map[key := ""]), Subst(tokens[1..], map[key := ""]));
    }
  }

  /** Erasing a completed placeholder takes away text that is no placeholder's. */
  lemma LeftIsLess(before: seq<Token>, key: string, rest: seq<Token>)
    requires BraceFree(key)
    ensures var tokens := before + Chars(Pattern(key)) + rest;
            Left(Print(tokens), key) < |Print(Subst(tokens, map[key := ""]))|
  {
    var (one, made) := (map[key := ""], Chars(Pattern(key)));
    LeftOfTokens(before, key);
    LeftOfTokens(rest, key);
    PrintConcat(before + made, rest);
    PrintConcat(before, made);
    PrintChars(Pattern(key));
    SubstConcat(before + made, rest, one);
    SubstConcat(before, made, one);
    SubstChars(Pattern(key), one);
    PrintConcat(Subst(before, one) + made, Subst(rest, one));
    PrintConcat(Subst(before, one), made);
    LeftOfBoth(Print(before) + Pattern(key), Print(rest), key);
    LeftOfBoth(Print(before), Pattern(key), key);
    ReplaceWhole(Pattern(key), "");
  }

  lemma {:induction false} AnOrder(vars: map<string, string>, names: set<string>) returns (order: seq<string>)
    requires names <= vars.Keys
    ensures Distinct(order) && forall x :: x in order <==> x in names
  {
    order := [];
    if names != {} {
      var x :| x in names;
      var others := AnOrder(vars, names - {x});
      order := others + [x];
    }
  }

  lemma {:induction false} SameValues(s: string, vars: map<string, string>, others: map<string, string>, order: seq<string>)
    requires forall k | 0 <= k < |order| :: order[k] in vars && order[k] in others && others[order[k]] == vars[order[k]]
    ensures ReplaceInOrder(s, others, order) == ReplaceInOrder(s, vars, order)
  {
    if order != [] { SameValues(s, vars, others, order[..|order| - 1]); }
  }

  // ---------------------------------------------------------------- replacements that find more than their placeholders

  lemma AcrossIsLess(u: string, w: string, key: string)
    requires BraceFree(key) && u != "" && Pattern(key) <= u + w && !(Pattern(key) <= u)
    ensures Left(u + w, key) < Left(u, key) + Left(w, key)
  {
    LeftAcross(u, w, key);
  }

  /** If nothing more is found where two texts meet, each is replaced on its own. */
  lemma {:induction false} JoinIsExact(u: string, w: string, key: string, value: string)
    requires BraceFree(key) && Left(u + w, key) == Left(u, key) + Left(w, key)
    ensures ReplaceAll(u + w, Pattern(key), value) == ReplaceAll(u, Pattern(key), value) + ReplaceAll(w, Pattern(key), value)
    decreases |u|
  {
    var pattern := Pattern(key);
    if u == "" {
      assert u + w == w;
    } else if pattern <= u {
      assert u + w == pattern + (u[|pattern|..] + w) && pattern <= u + w;
      assert (u + w)[|pattern|..] == u[|pattern|..] + w;
      JoinIsExact(u[|pattern|..], w, key, value);
    } else if pattern <= u + w {
      AcrossIsLess(u, w, key);
      assert false;
    } else {
      assert (u + w)[1..] == u[1..] + w;
      JoinIsExact(u[1..], w, key, value);
    }
  }

  lemma {:induction false} NothingFound(s: string, key: string, value: string)
    requires Left(s, key) == |s|
    ensures ReplaceAll(s, Pattern(key), value) == s
  {
    if s != "" {
      if Pattern(key) <= s {
        LeftAtMost(s[|Pattern(key)|..], key);
        assert false;
      } else {
        NothingFound(s[1..], key, value);
      }
    }
  }

  lemma OneIsExact(token: Token, key: string, value: string)
    requires Left(PrintOne(token), key) == |Print(SubstOne(token, map[key := ""]))|
    ensures ReplaceAll(PrintOne(token), Pattern(key), value) == Print(SubstOne(token, map[key := value]))
  {
    PrintOneSubst(token, map[key := ""]);
    PrintOneSubst(token, map[key := value]);
    if token == Slot(key) {
      ReplaceWhole(Pattern(key), value);
    } else {
      NothingFound(PrintOne(token), key, value);
    }
  }

  /** A replacement that erases no more than the placeholders is substitution. */
  lemma {:induction false} TokensAreExact(tokens: seq<Token>, key: string, value: string)
    requires BraceFree(key) && Left(Print(tokens), key) == |Print(Subst(tokens, map[key := ""]))|
    ensures ReplaceAll(Print(tokens), Pattern(key), value) == Print(Subst(tokens, map[key := value]))
  {
    if tokens != [] {
      var (one, rest) := (PrintOne(tokens[0]), Print(tokens[1..]));
      PrintConcat(SubstOne(tokens[0], map[key := ""]), Subst(tokens[1..], map[key := ""]));
      PrintConcat(SubstOne(tokens[0], map[key := value]), Subst(tokens[1..], map[key := value]));
      LeftOfTokens(tokens[1..], key);
      LeftOfOne(tokens[0], key);
      LeftOfBoth(one, rest, key);
      TokensAreExact(tokens[1..], key, value);
      OneIsExact(tokens[0], key, value);
      JoinIsExact(one, rest, key, value);
    }
  }

  /** The length of the placeholders of one name. */
  function Held(tokens: seq<Token>, key: string): nat {
    if tokens == [] then 0 else (if tokens[0] == Slot(key) then |Pattern(key)| else 0) + Held(tokens[1..], key)
  }

  lemma {:induction false} HeldIsErased(tokens: seq<Token>, key: string)
    ensures |Print(tokens)| == |Print(Subst(tokens, map[key := ""]))| + Held(tokens, key)
  {
    if tokens != [] {
      HeldIsErased(tokens[1..], key);
      PrintSubstHead(tokens, map[key := ""]);
    }
  }

  lemma {:induction false} HeldConcat(a: seq<Token>, b: seq<Token>, key: string)
    ensures Held(a + b, key) == Held(a, key) + Held(b, key)
  {
    if a == [] {
      assert a + b == b;
    } else {
      assert (a + b)[1..] == a[1..] + b;
      HeldConcat(a[1..], b, key);
    }
  }

  lemma {:induction false} HeldChars(s: string, key: string)
    ensures Held(Chars(s), key) == 0
  {
    if s != "" {
      assert Chars(s)[1..] == Chars(s[1..]);
      HeldChars(s[1..], key);
    }
  }

  lemma {:induction false} HeldStays(tokens: seq<Token>, vars: map<string, string>, key: string)
    requires key !in vars
    ensures Held(Subst(tokens, vars), key) == Held(tokens, key)
  {
    if tokens != [] {
      HeldStays(tokens[1..], vars, key);
      HeldConcat(SubstOne(tokens[0], vars), Subst(tokens[1..], vars), key);
      if tokens[0].Slot? && tokens[0].key in vars {
        HeldChars(vars[tokens[0].key], key);
      } else {
        assert SubstOne(tokens[0], vars)[1..] == [];
      }
    }
  }

  /** Erasing a name takes more from `u` than from `s`. */
  predicate FindsMore(s: string, u: string, key: string) {
    |u| - Left(u, key) > |s| - Left(s, key)
  }

  /** After some substitutions, erasing more than the placeholders finds more than in the text itself. */
  lemma MoreThanHeld(s: string, vars: map<string, string>, key: string)
    requires key !in vars && BraceFree(key)
    requires var made := Subst(Scan(s), vars); Left(Print(made), key) < |Print(Subst(made, map[key := ""]))|
    ensures FindsMore(s, Print(Subst(Scan(s), vars)), key)
  {
    PrintScan(s);
    ReplaceIsSubst(s, key, "");
    HeldIsErased(Scan(s), key);
    HeldIsErased(Subst(Scan(s), vars), key);
    HeldStays(Scan(s), vars, key);
  }

  /** All replacements are substitutions, or one of them comes upon more than its placeholders. */
  lemma {:induction false} SubstOrMore(s: string, vars: map<string, string>, order: seq<string>) returns (n: nat)
    requires CleanKeys(vars) && (forall k | 0 <= k < |order| :: order[k] in vars) && Distinct(order)
    ensures n <= |order| && ReplaceInOrder(s, vars, order[..n]) == Print(Subst(Scan(s), Restrict(vars, order[..n])))
    ensures n < |order| ==> FindsMore(s, ReplaceInOrder(s, vars, order[..n]), order[n])
  {
    if order == [] {
      n := 0;
      PrintScan(s);
      SubstNothing(Scan(s));
      assert Restrict(vars, order[..0]) == map[];
    } else {
      var last := |order| - 1;
      n := SubstOrMore(s, vars, order[..last]);
      assert order[..last][..n] == order[..n];
      if n == last {
        n := OneOrMore(s, vars, order);
      }
    }
  }

  lemma OneOrMore(s: string, vars: map<string, string>, order: seq<string>) returns (n: nat)
    requires order != [] && CleanKeys(vars) && (forall k | 0 <= k < |order| :: order[k] in vars) && Distinct(order)
    requires var front := order[..|order| - 1]; ReplaceInOrder(s, vars, front) == Print(Subst(Scan(s), Restrict(vars, front)))
    ensures |order| - 1 <= n <= |order| && ReplaceInOrder(s, vars, order[..n]) == Print(Subst(Scan(s), Restrict(vars, order[..n])))
    ensures n < |order| ==> FindsMore(s, ReplaceInOrder(s, vars, order[..n]), order[n])
  {
    n := |order| - 1;
    var (front, key) := (order[..n], order[n]);
    var made := Subst(Scan(s), Restrict(vars, front));
    RestrictMore(vars, order);
    LeftOfTokens(made, key);
    if Left(Print(made), key) < |Print(Subst(made, map[key := ""]))| {
      MoreThanHeld(s, Restrict(vars, front), key);
    } else {
      TokensAreExact(made, key, vars[key]);
      SubstLater(Scan(s), Restrict(vars, front), key, vars[key]);
      n := |order|;
      assert order[..n] == order;
    }
  }

  /** A text that can reopen: some replacements bring up a name more often than the text itself has it. */
  lemma ReopeningFindsMore(s: string) returns (vars: map<string, string>, order: seq<string>, key: string)
    requires CanReopen(s)
    ensures Prepares(vars, {}, key) && BraceFree(key) && IsOrder(order, vars)
    ensures FindsMore(s, ReplaceInOrder(s, vars, order), key)
  {
    var before, rest;
    ScanIsClean(s);
    vars, key, before, rest := ReopenWith(Scan(s));
    order := AnOrder(vars, vars.Keys);
    var n := SubstOrMore(s, vars, order);
    if n == |order| {
      assert order[..n] == order && Restrict(vars, order) == vars;
      LeftIsLess(before, key, rest);
      MoreThanHeld(s, vars, key);
    } else {
      var front := order[..n];
      SameValues(s, vars, Restrict(vars, front), front);
      vars, order, key := Restrict(vars, front), front, order[n];
    }
  }

  // ---------------------------------------------------------------- two orders that differ

  function Marks(s: string): nat { if s == "" then 0 else (if s[0] == MARKER then 1 else 0) + Marks(s[1..]) }

  lemma {:induction false} MarksConcat(a: string, b: string)
    ensures Marks(a + b) == Marks(a) + Marks(b)
  {
    if a == "" {
      assert a + b == b;
    } else {
      assert (a + b)[1..] == a[1..] + b;
      MarksConcat(a[1..], b);
    }
  }

  lemma {:induction false} MarksAtMost(s: string)
    ensures Marks(s) <= |s| && (MARKER !in s ==> Marks(s) == 0)
  {
    if s != "" {
      assert s[0] in s && forall c | c in s[1..] :: c in s;
      MarksAtMost(s[1..]);
    }
  }

  function Marked(n: nat): string { seq(n, _ => MARKER) }

  lemma {:induction false} MarkedHas(n: nat)
    ensures Marks(Marked(n)) == n
  {
    if n > 0 {
      assert Marked(n)[1..] == Marked(n - 1);
      MarkedHas(n - 1);
    }
  }

  /** Leftmost matches that do not overlap. */
  function Matches(s: string, pattern: string): nat
    requires pattern != ""
  {
    if s == "" then 0
    else if pattern <= s then 1 + Matches(s[|pattern|..], pattern)
    else Matches(s[1..], pattern)
  }

  lemma AddOne(a: nat, n: nat)
    ensures (1 + a) * n == n + a * n
  {
  }

  lemma {:induction false} MatchesErase(s: string, pattern: string)
    requires pattern != ""
    ensures |s| == |ReplaceAll(s, pattern, "")| + Matches(s, pattern) * |pattern|
  {
    if s != "" {
      if pattern <= s {
        MatchesErase(s[|pattern|..], pattern);
        AddOne(Matches(s[|pattern|..], pattern), |pattern|);
      } else {
        MatchesErase(s[1..], pattern);
      }
    }
  }

  /** Every match brings in its value's marks; the rest of the text adds at most one for each letter. */
  lemma {:induction false} MatchesMark(s: string, pattern: string, n: nat)
    requires pattern != ""
    ensures Matches(s, pattern) * n <= Marks(ReplaceAll(s, pattern, Marked(n))) <= Matches(s, pattern) * n + |s|
  {
    if s != "" {
      if pattern <= s {
        var rest := s[|pattern|..];
        MatchesMark(rest, pattern, n);
        MarkedHas(n);
        MarksConcat(Marked(n), ReplaceAll(rest, pattern, Marked(n)));
        AddOne(Matches(rest, pattern), n);
      } else {
        MatchesMark(s[1..], pattern, n);
        MarksConcat([s[0]], ReplaceAll(s[1..], pattern, Marked(n)));
        MarksAtMost([s[0]]);
      }
    }
  }

  lemma {:induction false} ReplaceAddsNoMarks(s: string, pattern: string, value: string)
    requires pattern != "" && MARKER !in value
    ensures Marks(ReplaceAll(s, pattern, value)) <= Marks(s)
    decreases |s|
  {
    if s != "" {
      if pattern <= s {
        var rest := s[|pattern|..];
        ReplaceAddsNoMarks(rest, pattern, value);
        MarksAtMost(value);
        MarksConcat(value, ReplaceAll(rest, pattern, value));
        assert s == pattern + rest;
        MarksConcat(pattern, rest);
      } else {
        ReplaceAddsNoMarks(s[1..], pattern, value);
        MarksConcat([s[0]], ReplaceAll(s[1..], pattern, value));
        MarksConcat([s[0]], s[1..]);
        assert s == [s[0]] + s[1..];
      }
    }
  }

  lemma {:induction false} OrderAddsNoMarks(s: string, vars: map<string, string>, order: seq<string>)
    requires forall k | 0 <= k < |order| :: order[k] in vars && MARKER !in vars[order[k]]
    ensures Marks(ReplaceInOrder(s, vars, order)) <= Marks(s)
  {
    if order != [] {
      var n := |order| - 1;
      OrderAddsNoMarks(s, vars, order[..n]);
      ReplaceAddsNoMarks(ReplaceInOrder(s, vars, order[..n]), Pattern(order[n]), vars[order[n]]);
    }
  }

  lemma {:induction false} FirstOfOrder(s: string, vars: map<string, string>, key: string, order: seq<string>)
    requires key in vars && forall k | 0 <= k < |order| :: order[k] in vars
    ensures ReplaceInOrder(s, vars, [key] + order) == ReplaceInOrder(ReplaceAll(s, Pattern(key), vars[key]), vars, order)
  {
    if order == [] {
      assert [key] + order == [key];
      ReplaceInOneStep(s, vars, key);
    } else {
      var n := |order| - 1;
      FirstOfOrder(s, vars, key, order[..n]);
      assert ([key] + order)[..n + 1] == [key] + order[..n];
    }
  }

  lemma MoreMatches(s: string, u: string, key: string)
    requires FindsMore(s, u, key)
    ensures Matches(u, Pattern(key)) >= Matches(s, Pattern(key)) + 1
  {
    MatchesErase(s, Pattern(key));
    MatchesErase(u, Pattern(key));
    var (a, b, p) := (Matches(u, Pattern(key)), Matches(s, Pattern(key)), |Pattern(key)|);
    assert a * p > b * p;
    LessFactor(a, b, p);
  }

  lemma LessFactor(a: nat, b: nat, p: nat)
    requires a * p > b * p
    ensures a > b
  {
    if a <= b { Scaled(a, b, p); }
  }

  lemma Scaled(a: nat, b: nat, p: nat)
    requires a <= b
    ensures a * p <= b * p
  {
  }

  /** With enough marks in its value, the name shows more of them if it has its turn last than first. */
  lemma LastShowsMore(s: string, vars: map<string, string>, order: seq<string>, key: string)
    requires Prepares(vars, {}, key) && BraceFree(key) && IsOrder(order, vars) && FindsMore(s, ReplaceInOrder(s, vars, order), key)
    ensures var marked := vars[key := Marked(|s| + 1)];
            && CleanKeys(marked) && NoOpening(marked) && IsOrder(order + [key], marked) && IsOrder([key] + order, marked)
            && Marks(ReplaceInOrder(s, marked, order + [key])) > Marks(ReplaceInOrder(s, marked, [key] + order))
  {
    var n := |s| + 1;
    KeyLastOrFirst(vars, order, key, Marked(n));
    ShownLast(s, vars, order, key, n);
    ShownFirst(s, vars, order, key, n);
    MoreMatches(s, ReplaceInOrder(s, vars, order), key);
    Scaled(Matches(s, Pattern(key)) + 1, Matches(ReplaceInOrder(s, vars, order), Pattern(key)), n);
    AddOne(Matches(s, Pattern(key)), n);
  }

  lemma ShownLast(s: string, vars: map<string, string>, order: seq<string>, key: string, n: nat)
    requires key !in vars && IsOrder(order, vars) && IsOrder(order + [key], vars[key := Marked(n)])
    ensures Marks(ReplaceInOrder(s, vars[key := Marked(n)], order + [key]))
            >= Matches(ReplaceInOrder(s, vars, order), Pattern(key)) * n
  {
    SameValues(s, vars, vars[key := Marked(n)], order);
    assert (order + [key])[..|order|] == order;
    MatchesMark(ReplaceInOrder(s, vars, order), Pattern(key), n);
  }

  lemma ShownFirst(s: string, vars: map<string, string>, order: seq<string>, key: string, n: nat)
    requires key !in vars && IsOrder(order, vars) && IsOrder([key] + order, vars[key := Marked(n)]) && Unmarked(vars)
    ensures Marks(ReplaceInOrder(s, vars[key := Marked(n)], [key] + order)) <= Matches(s, Pattern(key)) * n + |s|
  {
    FirstOfOrder(s, vars[key := Marked(n)], key, order);
    MatchesMark(s, Pattern(key), n);
    OrderAddsNoMarks(ReplaceAll(s, Pattern(key), Marked(n)), vars[key := Marked(n)], order);
  }

  lemma KeyLastOrFirst(vars: map<string, string>, order: seq<string>, key: string, value: string)
    requires key !in vars && IsOrder(order, vars)
    ensures IsOrder(order + [key], vars[key := value]) && IsOrder([key] + order, vars[key := value])
  {
    forall x | x in vars[key := value] ensures x in order + [key] && x in [key] + order {
      if x == key { assert (order + [key])[|order|] == key && ([key] + order)[0] == key; } else { assert x in order; }
    }
  }

  // ---------------------------------------------------------------- which texts are safe

  /** All orders of all maps with brace-free names, and values without an opening brace, render the
      text alike. */
  ghost predicate OrderIndependent(s: string) {
    forall vars, a, b | CleanKeys(vars) && NoOpening(vars) && IsOrder(a, vars) && IsOrder(b, vars) ::
      ReplaceInOrder(s, vars, a) == ReplaceInOrder(s, vars, b)
  }

  /** They all render it as the one-pass substitution. */
  ghost predicate RendersSimultaneously(s: string) {
    forall vars, order | CleanKeys(vars) && NoOpening(vars) && IsOrder(order, vars) :: ReplaceInOrder(s, vars, order) == OnePass(s, vars)
  }

  lemma ReopeningDependsOnOrder(s: string)
    requires CanReopen(s)
    ensures !OrderIndependent(s)
  {
    var vars, order, key := ReopeningFindsMore(s);
    LastShowsMore(s, vars, order, key);
  }

  /** Which texts are safe for every map with brace-free names and values without an opening brace:
      exactly those that cannot reopen render alike in every order, and exactly those render as the
      one-pass substitution. */
  lemma SafeTexts(s: string)
    ensures OrderIndependent(s) <==> !CanReopen(s)
    ensures RendersSimultaneously(s) <==> !CanReopen(s)
  {
    if CanReopen(s) {
      ReopeningDependsOnOrder(s);
    } else {
      forall vars, order | CleanKeys(vars) && NoOpening(vars) && IsOrder(order, vars)
        ensures ReplaceInOrder(s, vars, order) == OnePass(s, vars)
      {
        RenderIsSimultaneous(s, vars, order);
      }
    }
  }

  // ---------------------------------------------------------------- the conditions on names and values

  predicate Over(alphabet: set<char>, s: string) { forall i | 0 <= i < |s| :: s[i] in alphabet }

  /** Rendering is one-pass substitution for every text that cannot reopen, if names come from one
      alphabet and values from another. */
  ghost predicate AlwaysSimultaneous(names: set<char>, values: set<char>) {
    forall s, vars, order |
      && !CanReopen(s) && IsOrder(order, vars)
      && (forall key | key in vars :: Over(names, key) && Over(values, vars[key])) ::
      ReplaceInOrder(s, vars, order) == OnePass(s, vars)
  }

  /** At least all orders of the map agree on every such text. */
  ghost predicate AlwaysOrderIndependent(names: set<char>, values: set<char>) {
    forall s, vars, a, b |
      && !CanReopen(s) && IsOrder(a, vars) && IsOrder(b, vars)
      && (forall key | key in vars :: Over(names, key) && Over(values, vars[key])) ::
      ReplaceInOrder(s, vars, a) == ReplaceInOrder(s, vars, b)
  }

  lemma {:induction false} PlainStops(s: string, n: nat)
    requires n <= |s| && BraceFree(s[..n]) && (n < |s| ==> IsBrace(s[n]))
    ensures Plain(s) == n
  {
    if n > 0 {
      assert s[..n][0] == s[0] && s[1..][..n - 1] == s[..n][1..];
      PlainStops(s[1..], n - 1);
    }
  }

  lemma ScanSlot(key: string, rest: string)
    requires BraceFree(key)
    ensures Placeholder(Pattern(key) + rest) == Some(|key|)
    ensures Scan(Pattern(key) + rest) == [Slot(key)] + Scan(rest)
  {
    var s := Pattern(key) + rest;
    assert s[2..] == key + "}}" + rest && s[2..][..|key|] == key;
    PlainStops(s[2..], |key|);
    assert s[2 + |key|..] == "}}" + rest && s[|key| + 4..] == rest && s[2..2 + |key|] == key;
  }

  lemma ScanChar(c: char, rest: string)
    requires c == '{' ==> rest == "" || rest[0] != '{' || |rest| == 1 || rest[1] == '{'
    ensures Scan([c] + rest) == [Ch(c)] + Scan(rest)
  {
    var s := [c] + rest;
    assert s[1..] == rest;
    if "{{" <= s {
      assert s[1] == rest[0];
      if |rest| > 1 { PlainStops(s[2..], 0); }
      assert Placeholder(s) == None;
    }
  }

  /** Scanning the text of tidy tokens finds those tokens: a text is stray-free exactly when it is
      the text of tidy tokens. */
  lemma {:induction false} ScanPrint(tokens: seq<Token>, open: bool)
    requires Tidy(tokens, open)
    ensures Scan(Print(tokens)) == tokens
    decreases tokens
  {
    if tokens != [] {
      var (token, rest) := (tokens[0], tokens[1..]);
      ScanPrint(rest, if token.Ch? then token.c == '{' else open);
      if token.Slot? {
        ScanSlot(token.key, Print(rest));
      } else {
        ScanChar(token.c, Print(rest));
      }
    }
  }

  lemma ReplaceWhole(pattern: string, value: string)
    requires pattern != ""
    ensures ReplaceAll(pattern, pattern, value) == value
  {
    assert pattern[|pattern|..] == "";
    assert ReplaceAll("", pattern, value) == "";
  }

  lemma ReplaceInOneStep(s: string, vars: map<string, string>, a: string)
    requires a in vars
    ensures ReplaceInOrder(s, vars, [a]) == ReplaceAll(s, Pattern(a), vars[a])
  {
    assert [a][..0] == [];
  }

  lemma ReplaceInTwoSteps(s: string, vars: map<string, string>, a: string, b: string)
    requires a in vars && b in vars
    ensures ReplaceInOrder(s, vars, [a, b]) == ReplaceAll(ReplaceAll(s, Pattern(a), vars[a]), Pattern(b), vars[b])
  {
    assert [a, b][..1] == [a];
    ReplaceInOneStep(s, vars, a);
  }

  /** A text whose placeholders are of no known variable stays as it is. */
  lemma {:induction false} NothingKnown(tokens: seq<Token>, vars: map<string, string>)
    requires forall k | 0 <= k < |tokens| :: tokens[k].Slot? ==> tokens[k].key !in vars
    ensures Subst(tokens, vars) == tokens
  {
    if tokens != [] { NothingKnown(tokens[1..], vars); }
  }

  /** A name that matches the whole text, of which the empty name has one letter left. */
  lemma WholeTextFails(names: set<char>, values: set<char>, s: string, name: string)
    requires s == Pattern(name) && name != "" && !CanReopen(s) && Over(names, name)
    requires Left(s, "") == 1
    ensures !AlwaysOrderIndependent(names, values)
  {
    var vars := map[name := "", "" := ""];
    TwoAreAnOrder(vars, name, "");
    TwoAreAnOrder(vars, "", name);
    ReplaceInTwoSteps(s, vars, name, "");
    ReplaceInTwoSteps(s, vars, "", name);
    ReplaceWhole(s, "");
    TooShort(ReplaceAll(s, Pattern(""), ""), name);
    assert ReplaceInOrder(s, vars, [name, ""]) == "" && |ReplaceInOrder(s, vars, ["", name])| == 1;
    assert Over(values, "") && Over(names, "");
  }

  /** A name that is a brace can match around a placeholder with an empty name. */
  lemma OpeningNameFails(names: set<char>, values: set<char>)
    requires '{' in names
    ensures !AlwaysOrderIndependent(names, values)
  {
    assert Pattern("") + "" == "{{}}" && ['{'] + "{{}}" == Pattern("{");
    ScanSlot("", "");
    ScanChar('{', "{{}}");
    var tokens := [Ch('{'), Slot("")];
    assert Scan(Pattern("{")) == tokens && tokens[1..] == [Slot("")] && [Slot("")][1..] == [];
    StrayFreeNeverReopens(Pattern("{"));
    ReplaceIsSubst(Pattern("{"), "", "");
    PrintSubstHead(tokens, map["" := ""]);
    PrintSubstHead([Slot("")], map["" := ""]);
    WholeTextFails(names, values, Pattern("{"), "{");
  }

  lemma ClosingNameFails(names: set<char>, values: set<char>)
    requires '}' in names
    ensures !AlwaysOrderIndependent(names, values)
  {
    assert Pattern("") + "}" == Pattern("}") && "}" == ['}'] + "";
    ScanSlot("", "}");
    ScanChar('}', "");
    var tokens := [Slot(""), Ch('}')];
    assert Scan(Pattern("}")) == tokens && tokens[1..] == [Ch('}')] && [Ch('}')][1..] == [];
    StrayFreeNeverReopens(Pattern("}"));
    ReplaceIsSubst(Pattern("}"), "", "");
    PrintSubstHead(tokens, map["" := ""]);
    PrintSubstHead([Ch('}')], map["" := ""]);
    WholeTextFails(names, values, Pattern("}"), "}");
  }

  /** A text that an opening brace for its empty name completes to the placeholder of `c`. */
  function Trap(c: char): string { Pattern("") + TrapTail(c) }

  function TrapTail(c: char): string { ['{', c, '}', '}'] }

  lemma TrapTailTokens(c: char)
    requires !IsBrace(c)
    ensures Scan(TrapTail(c)) == Chars(TrapTail(c))
  {
    var t := [c, '}', '}'];
    assert TrapTail(c) == ['{'] + t;
    ScanLetters(t);
    ScanChar('{', t);
    assert Chars(TrapTail(c)) == [Ch('{')] + Chars(t);
  }

  lemma {:induction false} ScanLetters(s: string)
    requires '{' !in s
    ensures Scan(s) == Chars(s)
  {
    if s != "" {
      assert s[0] in s && forall c | c in s[1..] :: c in s;
      ScanLetters(s[1..]);
      assert s == [s[0]] + s[1..];
      ScanChar(s[0], s[1..]);
      assert Chars(s) == [Ch(s[0])] + Chars(s[1..]);
    }
  }

  lemma {:induction false} LettersAreTidy(s: string)
    requires '{' !in s
    ensures Tidy(Chars(s), true) && Tidy(Chars(s), false)
  {
    if s != "" {
      assert s[0] in s && forall c | c in s[1..] :: c in s;
      LettersAreTidy(s[1..]);
      assert Chars(s)[1..] == Chars(s[1..]);
    }
  }

  lemma TrapTokens(c: char)
    requires !IsBrace(c)
    ensures Scan(Trap(c)) == [Slot("")] + Chars(TrapTail(c)) && StrayFree(Trap(c))
  {
    ScanSlot("", TrapTail(c));
    TrapTailTokens(c);
    LettersAreTidy([c, '}', '}']);
    assert Chars(TrapTail(c))[1..] == Chars([c, '}', '}']) && Chars(TrapTail(c))[0] == Ch('{');
    assert ([Slot("")] + Chars(TrapTail(c)))[1..] == Chars(TrapTail(c));
  }

  /** Giving the empty name an opening brace completes the placeholder. */
  lemma TrapCloses(c: char, vars: map<string, string>)
    requires !IsBrace(c) && "" in vars && vars[""] == "{"
    ensures Print(Subst(Scan(Trap(c)), vars)) == Pattern([c])
  {
    TrapTokens(c);
    assert ([Slot("")] + Chars(TrapTail(c)))[1..] == Chars(TrapTail(c));
    SubstChars(TrapTail(c), vars);
    PrintConcat(Chars("{"), Chars(TrapTail(c)));
    PrintChars("{");
    PrintChars(TrapTail(c));
    assert "{" + TrapTail(c) == Pattern([c]);
  }

  /** Without it the text has nothing for `c` to replace. */
  lemma TrapWaits(c: char)
    requires !IsBrace(c)
    ensures ReplaceAll(Trap(c), Pattern([c]), "") == Trap(c)
  {
    TrapTokens(c);
    ReplaceIsSubst(Trap(c), [c], "");
    NothingKnown(Scan(Trap(c)), map[[c] := ""]);
    PrintScan(Trap(c));
  }

  lemma TrapRenders(c: char, vars: map<string, string>)
    requires !IsBrace(c) && "" in vars && vars[""] == "{" && [c] in vars && vars[[c]] == ""
    ensures ReplaceInOrder(Trap(c), vars, ["", [c]]) == "" && ReplaceInOrder(Trap(c), vars, [[c], ""]) == Pattern([c])
  {
    ReplaceIsSubst(Trap(c), "", "{");
    TrapCloses(c, map["" := "{"]);
    TrapWaits(c);
    ReplaceInTwoSteps(Trap(c), vars, "", [c]);
    ReplaceInTwoSteps(Trap(c), vars, [c], "");
    ReplaceWhole(Pattern([c]), "");
  }

  lemma OpeningValueFails(names: set<char>, values: set<char>, c: char)
    requires c in names && !IsBrace(c) && '{' in values
    ensures !AlwaysOrderIndependent(names, values)
  {
    var vars := map["" := "{", [c] := ""];
    TrapTokens(c);
    StrayFreeNeverReopens(Trap(c));
    TrapRenders(c, vars);
    TwoAreAnOrder(vars, "", [c]);
    TwoAreAnOrder(vars, [c], "");
    assert Over(names, [c]) && Over(names, "") && Over(values, "{") && Over(values, "");
  }

  lemma TwoAreAnOrder(vars: map<string, string>, a: string, b: string)
    requires vars.Keys == {a, b} && a != b
    ensures IsOrder([a, b], vars)
  {
    assert [a, b][0] == a && [a, b][1] == b;
  }

  /** With one variable there is nothing to go wrong, whatever its value. */
  lemma OneVariable(s: string, vars: map<string, string>, order: seq<string>)
    requires IsOrder(order, vars) && forall key | key in vars :: key == ""
    ensures ReplaceInOrder(s, vars, order) == OnePass(s, vars)
  {
    PrintScan(s);
    OnePassIsSubst(s, vars);
    assert Members(order) == vars.Keys;
    DistinctSize(order);
    if "" in vars {
      assert vars == map["" := vars[""]] && vars.Keys == {""};
      assert order == [""];
      ReplaceInOneStep(s, vars, "");
      ReplaceIsSubst(s, "", vars[""]);
    } else {
      assert vars == map[] && vars.Keys == {};
      SubstNothing(Scan(s));
    }
  }

  lemma EmptyAlphabet(alphabet: set<char>, s: string)
    requires alphabet == {}
    ensures Over(alphabet, s) ==> s == ""
  {
    if s != "" { assert s[0] !in alphabet; }
  }

  predicate SafeNamesAndValues(names: set<char>, values: set<char>) {
    '{' !in names && '}' !in names && ('{' !in values || names == {})
  }

  /** Which names and values are safe for every text that cannot reopen: exactly brace-free names, with
      values that have no opening brace unless the empty name is the only one there is. Only then do
      all orders agree, and then they agree with the one-pass substitution. */
  lemma SafeAlphabets(names: set<char>, values: set<char>)
    ensures AlwaysOrderIndependent(names, values) <==> SafeNamesAndValues(names, values)
    ensures AlwaysSimultaneous(names, values) <==> SafeNamesAndValues(names, values)
  {
    if '{' in names {
      OpeningNameFails(names, values);
    } else if '}' in names {
      ClosingNameFails(names, values);
    } else if '{' in values && names != {} {
      var c :| c in names;
      OpeningValueFails(names, values, c);
    } else {
      forall s, vars, order |
        && !CanReopen(s) && IsOrder(order, vars)
        && (forall key | key in vars :: Over(names, key) && Over(values, vars[key]))
        ensures ReplaceInOrder(s, vars, order) == OnePass(s, vars)
      {
        if names == {} {
          forall key | key in vars ensures key == "" {
            EmptyAlphabet(names, key);
          }
          OneVariable(s, vars, order);
        } else {
          RenderIsSimultaneous(s, vars, order);
        }
      }
    }
  }

  const STRAY := "{{{{x}}}}"

  lemma StrayX()
    ensures ReplaceAll(STRAY, Pattern("x"), "y") == Pattern("y")
  {
    var t := Pattern("x") + "}}";
    assert STRAY == "{{" + t;
    forall p | 0 <= p < |"{{"| ensures !(Pattern("x") <= ("{{" + t)[p..]) { Differs(Pattern("x"), ("{{" + t)[p..], 2); }
    PassOver("{{", t, Pattern("x"), "y");
    ReplaceSlot("x", "}}", "x", "y");
    ClosingStays("x", "y");
    assert "{{" + ("y" + "}}") == Pattern("y");
  }

  lemma ClosingStays(key: string, value: string)
    ensures ReplaceAll("}}", Pattern(key), value) == "}}"
  {
    forall p | 0 <= p < |"}}"| ensures !(Pattern(key) <= ("}}" + "")[p..]) { Differs(Pattern(key), ("}}" + "")[p..], 0); }
    PassOver("}}", "", Pattern(key), value);
    assert "}}" + "" == "}}";
  }

  lemma StrayY()
    ensures ReplaceAll(STRAY, Pattern("y"), "") == STRAY
  {
    var t := Pattern("x") + "}}";
    assert STRAY == "{{" + t;
    forall p | 0 <= p < |"{{"| ensures !(Pattern("y") <= ("{{" + t)[p..]) { Differs(Pattern("y"), ("{{" + t)[p..], 2); }
    PassOver("{{", t, Pattern("y"), "");
    assert "x"[0] != "y"[0];
    ReplaceSlot("x", "}}", "y", "");
    ClosingStays("y", "");
  }

  function StrayVars(): map<string, string> { map["x" := "y", "y" := ""] }

  lemma StrayVarsMeaning()
    ensures var vars := StrayVars();
            vars.Keys == {"x", "y"} && vars["x"] == "y" && vars["y"] == "" && "x" != "y" && CleanKeys(vars) && NoOpening(vars)
  {
    assert "x"[0] != "y"[0];
  }

  lemma StrayRenders()
    ensures "x" in StrayVars() && "y" in StrayVars()
    ensures ReplaceInOrder(STRAY, StrayVars(), ["x", "y"]) == ""
    ensures ReplaceInOrder(STRAY, StrayVars(), ["y", "x"]) == Pattern("y")
  {
    StrayVarsMeaning();
    StrayX();
    StrayY();
    ReplaceInTwoSteps(STRAY, StrayVars(), "x", "y");
    ReplaceInTwoSteps(STRAY, StrayVars(), "y", "x");
    ReplaceWhole(Pattern("y"), "");
  }

  /** A text with stray opening braces can be rendered in two ways by the same template and
      variables, depending on the order in which the map is visited. */
  lemma StrayBracesDependOnOrder()
    ensures CanReopen(STRAY) && CleanKeys(StrayVars()) && NoOpening(StrayVars())
    ensures IsOrder(["x", "y"], StrayVars()) && IsOrder(["y", "x"], StrayVars())
    ensures ReplaceInOrder(STRAY, StrayVars(), ["x", "y"]) != ReplaceInOrder(STRAY, StrayVars(), ["y", "x"])
  {
    StrayVarsMeaning();
    StrayRenders();
    TwoAreAnOrder(StrayVars(), "x", "y");
    TwoAreAnOrder(StrayVars(), "y", "x");
    OrdersDiffer(STRAY, StrayVars(), ["x", "y"], ["y", "x"]);
  }

  /** Only a text that can reopen renders in two ways. */
  lemma OrdersDiffer(s: string, vars: map<string, string>, a: seq<string>, b: seq<string>)
    requires CleanKeys(vars) && NoOpening(vars) && IsOrder(a, vars) && IsOrder(b, vars)
    requires ReplaceInOrder(s, vars, a) != ReplaceInOrder(s, vars, b)
    ensures CanReopen(s)
  {
    if !CanReopen(s) {
      RenderIsSimultaneous(s, vars, a);
      RenderIsSimultaneous(s, vars, b);
      assert false;
    }
  }
}
