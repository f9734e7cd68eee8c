/** `batch.bash`: the rendered text, and what a POSIX shell reads back from it. */
module Render {
  import opened Wrappers
  import opened Keys
  import opened Alphabet
  import opened JobIdText
  import opened Shell

  /** `Float`, `Datetime` and `Table` carry the text the TOML library prints for them. */
  datatype TomlValue =
    | TomlString(s: string)
    | Integer(i: int)
    | Float(text: string)
    | Boolean(b: bool)
    | Array(items: seq<TomlValue>)
    | Datetime(text: string)
    | Table(text: string)

  function ValueText(v: TomlValue): string
    decreases v, 0
  {
    match v
    case TomlString(s) => s
    case Integer(i) => if i < 0 then "-" + Decimal(-i) else Decimal(i)
    case Float(text) => text
    case Boolean(b) => if b then "true" else "false"
    case Array(items) => JoinTexts(v, items)
    case Datetime(text) => text
    case Table(text) => text
  }

  function JoinTexts(v: TomlValue, items: seq<TomlValue>): string
    requires forall i | 0 <= i < |items| :: items[i] < v
    decreases v, 0, |items|
  {
    if items == [] then ""
    else if |items| == 1 then ValueText(items[0])
    else ValueText(items[0]) + " " + JoinTexts(v, items[1..])
  }

  // ---- Quoting and names ----

  function Escape(s: string): string {
    if s == "" then ""
    else (if s[0] == '\'' then "'\\''" else [s[0]]) + Escape(s[1..])
  }

  function QuoteForBash(s: string): string {
    "'" + Escape(s) + "'"
  }

  function SanitizeChar(c: char): char {
    if 'a' <= c <= 'z' then (c as int - 'a' as int + 'A' as int) as char
    else if 'A' <= c <= 'Z' || '0' <= c <= '9' then c
    else '_'
  }

  function SanitizeVarName(name: string): string {
    seq(|name|, i requires 0 <= i < |name| => SanitizeChar(name[i]))
  }

  /** `'\''` inside quotes: close, an escaped quote, open again. */
  lemma QuoteReopens(tail: string)
    ensures ReadWord("'\\''" + tail, true) == Prepend('\'', ReadWord(tail, true))
  {
    var last := "'" + tail;
    var middle := ['\\', '\''] + last;
    ReadQuoteMark(tail, false);
    ReadEscapedChar('\'', last);
    ReadQuoteMark(middle, true);
    assert "'\\''" + tail == "'" + middle;
  }

  lemma FirstApart(s: string, t: string)
    requires s != ""
    ensures s + t == [s[0]] + (s[1..] + t)
  {
  }

  lemma EscapePeels(s: string, t: string)
    requires s != ""
    ensures Escape(s) + "'" + t ==
              (if s[0] == '\'' then "'\\''" else [s[0]]) + (Escape(s[1..]) + "'" + t)
  {
  }

  /** Inside quotes, the escaped text followed by the closing quote reads as the original. */
  lemma {:induction false} EscapedReadsBack(s: string, t: string, w: Word)
    requires ReadWord(t, false) == Some(w)
    ensures ReadWord(Escape(s) + "'" + t, true) == Some(Word(s + w.value, w.rest))
  {
    if s == "" {
      ReadQuoteMark(t, true);
      assert Escape(s) + "'" + t == "'" + t && s + w.value == w.value;
    } else {
      var tail := Escape(s[1..]) + "'" + t;
      EscapedReadsBack(s[1..], t, w);
      EscapePeels(s, t);
      FirstApart(s, w.value);
      if s[0] == '\'' {
        QuoteReopens(tail);
      } else {
        ReadQuotedChar(s[0], tail);
      }
    }
  }

  /** A quoted value at the end of a line reads as one word equal to the value. */
  lemma QuotedReadsBack(s: string, t: string)
    ensures ReadWord(QuoteForBash(s) + "\n" + t, false) == Some(Word(s, "\n" + t))
  {
    var line := "\n" + t;
    EscapedReadsBack(s, line, Word("", line));
    ReadQuoteMark(Escape(s) + "'" + line, false);
    assert QuoteForBash(s) + "\n" + t == "'" + (Escape(s) + "'" + line);
    assert s + "" == s;
  }

  // ---- The header ----

  datatype Item = Blank | Comment(text: string) | Export(name: string, value: string)

  function ItemText(): Item -> string {
    (item: Item) =>
      match item
      case Blank => "\n"
      case Comment(text) => "#" + text + "\n"
      case Export(name, value) => EXPORT + name + "=" + QuoteForBash(value) + "\n"
  }

  function Text(items: seq<Item>): string {
    FlatMap(items, ItemText())
  }

  predicate Readable(item: Item) {
    (item.Comment? ==> '\n' !in item.text) && (item.Export? ==> ValidName(item.name))
  }

  function Effect(item: Item, env: Env): Env {
    if item.Export? then env[item.name := item.value] else env
  }

  /** The environment after all exports, later ones overriding earlier ones. */
  function EnvOf(items: seq<Item>): Env {
    if items == [] then map[] else Effect(items[|items| - 1], EnvOf(items[..|items| - 1]))
  }

  lemma CommentReadsBack(text: string, t: string, env: Env)
    requires '\n' !in text
    ensures ReadItem("#" + text + "\n" + t, env) == Some((t, env))
  {
    var s, n := "#" + text + "\n" + t, |text| + 1;
    assert s[n] == '\n' && s[n + 1..] == t;
    forall i | 0 <= i < n ensures s[i] != '\n' {
      if i > 0 { assert s[i] == text[i - 1]; }
    }
    assert LineLength(s) == n;
  }

  lemma NameEnds(name: string, rest: string)
    requires ValidName(name)
    ensures var s := name + "=" + rest;
            NameLength(s) == |name| && s[..|name|] == name && s[|name|] == '=' && s[|name| + 1..] == rest
  {
    var s := name + "=" + rest;
    assert s[|name|] == '=';
    forall i | 0 <= i < |name| ensures NameChar(s[i]) {
      assert s[i] == name[i];
    }
  }

  lemma ExportReadsWord(name: string, rest: string, value: string, t: string, env: Env)
    requires ValidName(name) && ReadWord(rest, false) == Some(Word(value, "\n" + t))
    ensures ReadExport(name + "=" + rest, env) == Some((t, env[name := value]))
  {
    NameEnds(name, rest);
    assert ("\n" + t)[1..] == t;
  }

  lemma ExportReadsBack(name: string, value: string, t: string, env: Env)
    requires ValidName(name)
    ensures ReadExport(name + "=" + QuoteForBash(value) + "\n" + t, env) == Some((t, env[name := value]))
  {
    QuotedReadsBack(value, t);
    ExportReadsWord(name, QuoteForBash(value) + "\n" + t, value, t, env);
    assert name + "=" + QuoteForBash(value) + "\n" + t == name + "=" + (QuoteForBash(value) + "\n" + t);
  }

  lemma ItemReadsBack(item: Item, t: string, env: Env)
    requires Readable(item)
    ensures ReadItem(ItemText()(item) + t, env) == Some((t, Effect(item, env)))
  {
    match item
    case Blank =>
      assert ("\n" + t)[1..] == t;
    case Comment(text) =>
      CommentReadsBack(text, t, env);
    case Export(name, value) =>
      ExportReadsBack(name, value, t, env);
      FirstApartFive(EXPORT, name, "=", QuoteForBash(value), "\n", t);
      ExportOpens(name + "=" + QuoteForBash(value) + "\n" + t, env);
  }

  lemma FirstApartFive(a: string, b: string, c: string, d: string, e: string, t: string)
    ensures a + b + c + d + e + t == a + (b + c + d + e + t)
  {
  }

  lemma ExportOpens(body: string, env: Env)
    ensures ReadItem(EXPORT + body, env) == ReadExport(body, env)
  {
    assert (EXPORT + body)[|EXPORT|..] == body && (EXPORT + body)[0] == EXPORT[0];
  }

  lemma {:induction false} ItemsReadBack(items: seq<Item>, t: string)
    requires AllReadable(items)
    ensures ReadItems(|items|, Text(items) + t, map[]) == Some((t, EnvOf(items)))
  {
    if items == [] {
      EmptyBase(t);
    } else {
      var n := |items| - 1;
      var last := ItemText()(items[n]);
      ItemsReadBack(items[..n], last + t);
      TextSnoc(items, t);
      ItemReadsBack(items[n], t, EnvOf(items[..n]));
    }
  }

  lemma TextSnoc(items: seq<Item>, t: string)
    requires items != []
    ensures Text(items) + t == Text(items[..|items| - 1]) + (ItemText()(items[|items| - 1]) + t)
  {
  }

  /** The environment holds, for each exported name, the value of its last export. */
  lemma {:induction false} EnvKeepsLast(items: seq<Item>, i: nat)
    requires i < |items| && items[i].Export?
    requires forall k | i < k < |items| :: !(items[k].Export? && items[k].name == items[i].name)
    ensures items[i].name in EnvOf(items) && EnvOf(items)[items[i].name] == items[i].value
    decreases |items|
  {
    var n := |items| - 1;
    if i < n {
      EnvKeepsLast(items[..n], i);
    }
  }

  lemma {:induction false} EnvOnlyExports(items: seq<Item>, name: string)
    ensures name in EnvOf(items) <==> exists i | 0 <= i < |items| :: items[i].Export? && items[i].name == name
  {
    if items != [] {
      var n := |items| - 1;
      EnvOnlyExports(items[..n], name);
      assert forall i | 0 <= i < n :: items[..n][i] == items[i];
    }
  }

  const SHEBANG: string := "!/bin/bash"
  const GENERATED_BY: string := " Generated by job_manager SP-3."
  const DO_NOT_EDIT: string := " Do not edit; regenerated on every `jm run`."
  const GENERATED: string := GENERATED_BY + DO_NOT_EDIT
  const CONTEXT: string := " --- job-manager runtime context ---"
  const PARAMS: string := " --- plan.toml params ---"
  const BODY: string := " --- user body (JobSpec.body) ---"

  function AxisExport(axis: (string, nat)): Item {
    Export("JM_AXIS_" + SanitizeVarName(axis.0), Decimal(axis.1))
  }

  function ParamExport(params: map<string, TomlValue>, k: string): Item
    requires k in params
  {
    Export("JM_PARAM_" + SanitizeVarName(k), ValueText(params[k]))
  }

  function AxisExports(axes: Axes): (r: seq<Item>)
    ensures |r| == |axes|
    ensures forall i | 0 <= i < |r| :: r[i] == AxisExport(axes[i])
  {
    seq(|axes|, i requires 0 <= i < |axes| => AxisExport(axes[i]))
  }

  function ParamExports(params: map<string, TomlValue>, keys: seq<string>): (r: seq<Item>)
    requires forall k | k in keys :: k in params
    ensures |r| == |keys|
    ensures forall i | 0 <= i < |r| :: r[i] == ParamExport(params, keys[i])
  {
    seq(|keys|, i requires 0 <= i < |keys| => ParamExport(params, keys[i]))
  }

  function ContextItems(flowUuid: string, jid: string): seq<Item> {
    [Comment(SHEBANG), Comment(GENERATED), Blank, Comment(CONTEXT),
     Export("JM_FLOW_UUID", flowUuid), Export("JM_JOB_ID", jid)]
  }

  function ParamHeading(): seq<Item> {
    [Blank, Comment(PARAMS)]
  }

  function BodyHeading(): seq<Item> {
    [Blank, Comment(BODY)]
  }

  function HeaderItems(flowUuid: string, jid: string, axes: Axes, params: map<string, TomlValue>): seq<Item> {
    ContextItems(flowUuid, jid) + AxisExports(axes) + ParamHeading()
    + ParamExports(params, SortedKeys(params.Keys)) + BodyHeading()
  }

  function BodyText(body: string): string {
    if body != "" && body[|body| - 1] == '\n' then body else body + "\n"
  }

  /** What `render_batch_bash` returns. */
  function Rendered(flowUuid: string, jid: string, axes: Axes, params: map<string, TomlValue>, body: string): string {
    Text(HeaderItems(flowUuid, jid, axes, params)) + BodyText(body)
  }

  // ---- Rendering ----

  lemma TextGrows(items: seq<Item>, item: Item)
    ensures Text(items + [item]) == Text(items) + ItemText()(item)
  {
    assert (items + [item])[..|items|] == items;
  }

  method PushItem(s: string, ghost items: seq<Item>, item: Item) returns (t: string, ghost pushed: seq<Item>)
    requires s == Text(items)
    ensures pushed == items + [item] && t == Text(pushed)
  {
    TextGrows(items, item);
    t := s + ItemText()(item);
    pushed := items + [item];
  }

  method PushAxes(s: string, ghost items: seq<Item>, axes: Axes) returns (t: string, ghost pushed: seq<Item>)
    requires s == Text(items)
    ensures pushed == items + AxisExports(axes) && t == Text(pushed)
  {
    ghost var all := AxisExports(axes);
    t, pushed := s, items;
    for i := 0 to |axes|
      invariant pushed == items + all[..i]
      invariant t == Text(pushed)
    {
      PrefixGrows(items, all, i);
      t, pushed := PushItem(t, pushed, AxisExport(axes[i]));
    }
    WholePrefix(all);
  }

  method PushParams(s: string, ghost items: seq<Item>, params: map<string, TomlValue>)
    returns (t: string, ghost pushed: seq<Item>)
    requires s == Text(items)
    ensures pushed == items + ParamExports(params, SortedKeys(params.Keys)) && t == Text(pushed)
  {
    var keys := SortedKeys(params.Keys);
    ghost var all := ParamExports(params, keys);
    t, pushed := s, items;
    for i := 0 to |keys|
      invariant pushed == items + all[..i]
      invariant t == Text(pushed)
    {
      assert keys[i] in keys;
      var item := ParamExport(params, keys[i]);
      assert all[i] == item;
      PrefixGrows(items, all, i);
      t, pushed := PushItem(t, pushed, item);
    }
    WholePrefix(all);
  }

  method PushItems(s: string, ghost items: seq<Item>, more: seq<Item>)
    returns (t: string, ghost pushed: seq<Item>)
    requires s == Text(items)
    ensures pushed == items + more && t == Text(pushed)
  {
    t, pushed := s, items;
    for i := 0 to |more|
      invariant pushed == items + more[..i]
      invariant t == Text(pushed)
    {
      PrefixGrows(items, more, i);
      t, pushed := PushItem(t, pushed, more[i]);
    }
    WholePrefix(more);
  }

  method PushBody(s: string, body: string) returns (t: string)
    ensures t == s + BodyText(body)
  {
    t := s + body;
    if body == "" || body[|body| - 1] != '\n' {
      t := t + "\n";
    }
  }

  /** Fixed items, axes, fixed items, params, fixed items, body. */
  method RenderSections(context: seq<Item>, axes: Axes, heading: seq<Item>,
                        params: map<string, TomlValue>, footing: seq<Item>, body: string) returns (s: string)
    ensures s == Text(context + AxisExports(axes) + heading
                      + ParamExports(params, SortedKeys(params.Keys)) + footing) + BodyText(body)
  {
    ghost var items: seq<Item> := [];
    EmptyBase(context);
    s, items := PushItems("", items, context);
    s, items := PushAxes(s, items, axes);
    s, items := PushItems(s, items, heading);
    s, items := PushParams(s, items, params);
    s, items := PushItems(s, items, footing);
    s := PushBody(s, body);
  }

  method RenderBatchBash(flowUuid: string, jid: string, parts: JobIdParts,
                         params: map<string, TomlValue>, body: string) returns (s: string)
    ensures s == Rendered(flowUuid, jid, parts.axisCombo, params, body)
    ensures RunsAs(s, flowUuid, jid, parts.axisCombo, params, body)
  {
    RenderedRunsAs(flowUuid, jid, parts.axisCombo, params, body);
    s := RenderSections(ContextItems(flowUuid, jid), parts.axisCombo, ParamHeading(), params, BodyHeading(), body);
  }

  // ---- What the shell sees ----

  lemma SanitizedIsName(prefix: string, name: string)
    requires prefix == "JM_AXIS_" || prefix == "JM_PARAM_"
    ensures ValidName(prefix + SanitizeVarName(name))
  {
    forall i | 0 <= i < |name| ensures NameChar(SanitizeVarName(name)[i]) {
    }
  }

  predicate AllReadable(items: seq<Item>) {
    forall i | 0 <= i < |items| :: Readable(items[i])
  }

  lemma ReadableConcat(a: seq<Item>, b: seq<Item>, c: seq<Item>, d: seq<Item>, e: seq<Item>)
    requires AllReadable(a) && AllReadable(b) && AllReadable(c) && AllReadable(d) && AllReadable(e)
    ensures AllReadable(a + b + c + d + e)
  {
  }

  lemma AxesReadable(axes: Axes)
    ensures AllReadable(AxisExports(axes))
  {
    forall i | 0 <= i < |axes| ensures Readable(AxisExport(axes[i])) {
      SanitizedIsName("JM_AXIS_", axes[i].0);
    }
  }

  lemma ParamsReadable(params: map<string, TomlValue>)
    ensures AllReadable(ParamExports(params, SortedKeys(params.Keys)))
  {
    var keys := SortedKeys(params.Keys);
    forall i | 0 <= i < |keys| ensures keys[i] in params && Readable(ParamExport(params, keys[i])) {
      assert keys[i] in keys;
      SanitizedIsName("JM_PARAM_", keys[i]);
    }
  }

  lemma OneLine(text: string)
    requires forall i | 0 <= i < |text| :: text[i] != '\n'
    ensures Readable(Comment(text))
  {
  }

  lemma ContextReadable(flowUuid: string, jid: string)
    ensures AllReadable(ContextItems(flowUuid, jid))
  {
    OneLine(SHEBANG);
    OneLine(GENERATED_BY);
    OneLine(DO_NOT_EDIT);
    OneLine(CONTEXT);
    var items := ContextItems(flowUuid, jid);
    assert Readable(items[4]) by { assert ValidName("JM_FLOW_UUID"); }
    assert Readable(items[5]) by { assert ValidName("JM_JOB_ID"); }
  }

  lemma HeadingsReadable()
    ensures AllReadable(ParamHeading()) && AllReadable(BodyHeading())
  {
    OneLine(PARAMS);
    OneLine(BODY);
  }

  lemma HeaderIsReadable(flowUuid: string, jid: string, axes: Axes, params: map<string, TomlValue>)
    ensures AllReadable(HeaderItems(flowUuid, jid, axes, params))
  {
    ContextReadable(flowUuid, jid);
    HeadingsReadable();
    AxesReadable(axes);
    ParamsReadable(params);
    ReadableConcat(ContextItems(flowUuid, jid), AxisExports(axes), ParamHeading(),
                   ParamExports(params, SortedKeys(params.Keys)), BodyHeading());
  }

  /** Reading the rendered script item by item consumes the header exactly, leaving the body,
      and builds the environment of the header's exports. */
  lemma ScriptReadsBack(flowUuid: string, jid: string, axes: Axes, params: map<string, TomlValue>, body: string)
    ensures var items := HeaderItems(flowUuid, jid, axes, params);
            ReadItems(|items|, Rendered(flowUuid, jid, axes, params, body), map[])
              == Some((BodyText(body), EnvOf(items)))
  {
    HeaderIsReadable(flowUuid, jid, axes, params);
    ItemsReadBack(HeaderItems(flowUuid, jid, axes, params), BodyText(body));
  }

  // ---- Which value each name ends with ----

  predicate Exports(item: Item, name: string) {
    item.Export? && item.name == name
  }

  predicate NoneExports(items: seq<Item>, name: string) {
    forall i | 0 <= i < |items| :: !Exports(items[i], name)
  }

  /** The last export of a name within one section wins if no later section exports it. */
  lemma SectionKeepsLast(pre: seq<Item>, sec: seq<Item>, post: seq<Item>, i: nat)
    requires i < |sec| && sec[i].Export?
    requires NoneExports(sec[i + 1..], sec[i].name) && NoneExports(post, sec[i].name)
    ensures sec[i].name in EnvOf(pre + sec + post)
    ensures EnvOf(pre + sec + post)[sec[i].name] == sec[i].value
  {
    var all, at := pre + sec + post, |pre| + i;
    assert all[at] == sec[i];
    forall k | at < k < |all| ensures !Exports(all[k], sec[i].name) {
      if k < |pre| + |sec| {
        assert all[k] == sec[i + 1..][k - at - 1];
      } else {
        assert all[k] == post[k - |pre| - |sec|];
      }
    }
    EnvKeepsLast(all, at);
  }

  /** Every export of `items` has `kind` as its fourth character. */
  predicate AllOfKind(items: seq<Item>, kind: char) {
    forall i | 0 <= i < |items| && items[i].Export? :: |items[i].name| > 3 && items[i].name[3] == kind
  }

  lemma AxesOfKind(axes: Axes)
    ensures AllOfKind(AxisExports(axes), 'A')
  {
    forall i | 0 <= i < |axes| ensures |AxisExport(axes[i]).name| > 3 && AxisExport(axes[i]).name[3] == 'A' {
    }
  }

  lemma ParamsOfKind(params: map<string, TomlValue>, keys: seq<string>)
    requires forall k | k in keys :: k in params
    ensures AllOfKind(ParamExports(params, keys), 'P')
  {
    forall i | 0 <= i < |keys|
      ensures keys[i] in params
      ensures |ParamExport(params, keys[i]).name| > 3 && ParamExport(params, keys[i]).name[3] == 'P'
    {
      assert keys[i] in keys;
    }
  }

  lemma OtherKindIsSilent(items: seq<Item>, kind: char, name: string)
    requires AllOfKind(items, kind) && |name| > 3 && name[3] != kind
    ensures NoneExports(items, name)
  {
  }

  lemma SilentConcat(a: seq<Item>, b: seq<Item>, name: string)
    ensures NoneExports(a + b, name) <==> NoneExports(a, name) && NoneExports(b, name)
  {
    if NoneExports(a + b, name) {
      assert forall i | 0 <= i < |a| :: (a + b)[i] == a[i];
      assert forall i | 0 <= i < |b| :: (a + b)[|a| + i] == b[i];
    }
  }

  function TailAfterAxes(params: map<string, TomlValue>): seq<Item> {
    ParamHeading() + (ParamExports(params, SortedKeys(params.Keys)) + BodyHeading())
  }

  lemma TailIsSilent(params: map<string, TomlValue>, name: string)
    requires |name| > 3 && name[3] != 'P'
    ensures NoneExports(TailAfterAxes(params), name)
  {
    var ps := ParamExports(params, SortedKeys(params.Keys));
    ParamsOfKind(params, SortedKeys(params.Keys));
    OtherKindIsSilent(ps, 'P', name);
    SilentConcat(ps, BodyHeading(), name);
    SilentConcat(ParamHeading(), ps + BodyHeading(), name);
  }

  lemma HeaderByAxes(flowUuid: string, jid: string, axes: Axes, params: map<string, TomlValue>)
    ensures HeaderItems(flowUuid, jid, axes, params) ==
              ContextItems(flowUuid, jid) + AxisExports(axes) + TailAfterAxes(params)
  {
    Associate(ContextItems(flowUuid, jid) + AxisExports(axes), ParamHeading(),
              ParamExports(params, SortedKeys(params.Keys)), BodyHeading());
  }

  lemma Associate(a: seq<Item>, b: seq<Item>, c: seq<Item>, d: seq<Item>)
    ensures a + b + c + d == a + (b + (c + d))
  {
  }

  /** An axis variable holds the index of the last axis whose name sanitizes to it. */
  lemma AxisVariable(flowUuid: string, jid: string, axes: Axes, params: map<string, TomlValue>, i: nat)
    requires i < |axes|
    requires forall k | i < k < |axes| :: SanitizeVarName(axes[k].0) != SanitizeVarName(axes[i].0)
    ensures var env, name := EnvOf(HeaderItems(flowUuid, jid, axes, params)), "JM_AXIS_" + SanitizeVarName(axes[i].0);
            name in env && env[name] == Decimal(axes[i].1)
  {
    var sec := AxisExports(axes);
    forall k | i < k < |axes| ensures !Exports(sec[k], sec[i].name) {
      PrefixInjective("JM_AXIS_", SanitizeVarName(axes[k].0), SanitizeVarName(axes[i].0));
    }
    AxesOfKind(axes);
    TailIsSilent(params, sec[i].name);
    HeaderByAxes(flowUuid, jid, axes, params);
    SectionKeepsLast(ContextItems(flowUuid, jid), sec, TailAfterAxes(params), i);
  }

  lemma PrefixInjective(prefix: string, a: string, b: string)
    requires a != b
    ensures prefix + a != prefix + b
  {
    assert (prefix + a)[|prefix|..] == a && (prefix + b)[|prefix|..] == b;
  }

  lemma LaterParamsAreSilent(params: map<string, TomlValue>, keys: seq<string>, i: nat)
    requires i < |keys| && forall k | k in keys :: k in params
    requires forall j | i < j < |keys| :: SanitizeVarName(keys[j]) != SanitizeVarName(keys[i])
    ensures var sec := ParamExports(params, keys); sec[i].Export? && NoneExports(sec[i + 1..], sec[i].name)
  {
    var sec := ParamExports(params, keys);
    forall j | i < j < |keys| ensures !Exports(sec[j], sec[i].name) {
      PrefixInjective("JM_PARAM_", SanitizeVarName(keys[j]), SanitizeVarName(keys[i]));
    }
  }

  /** A parameter variable holds the value of the last key, in key order, that sanitizes to it. */
  lemma ParamVariable(flowUuid: string, jid: string, axes: Axes, params: map<string, TomlValue>, k: string)
    requires k in params
    requires forall l | l in params && Less(k, l) :: SanitizeVarName(l) != SanitizeVarName(k)
    ensures var env, name := EnvOf(HeaderItems(flowUuid, jid, axes, params)), "JM_PARAM_" + SanitizeVarName(k);
            name in env && env[name] == ValueText(params[k])
  {
    var keys := SortedKeys(params.Keys);
    var i := KeyPosition(params.Keys, k);
    LaterParamsAreSilent(params, keys, i);
    SectionKeepsLast(ContextItems(flowUuid, jid) + AxisExports(axes) + ParamHeading(),
                     ParamExports(params, keys), BodyHeading(), i);
  }

  /** Later sections export only names of their own kind. */
  lemma LaterSectionsAreSilent(axes: Axes, params: map<string, TomlValue>, name: string)
    requires |name| > 3 && name[3] != 'A' && name[3] != 'P'
    ensures NoneExports(AxisExports(axes) + TailAfterAxes(params), name)
  {
    AxesOfKind(axes);
    OtherKindIsSilent(AxisExports(axes), 'A', name);
    TailIsSilent(params, name);
    SilentConcat(AxisExports(axes), TailAfterAxes(params), name);
  }

  lemma AssociateThree(a: seq<Item>, b: seq<Item>, c: seq<Item>)
    ensures a + b + c == a + (b + c)
  {
  }

  lemma HeaderByContext(flowUuid: string, jid: string, axes: Axes, params: map<string, TomlValue>)
    ensures HeaderItems(flowUuid, jid, axes, params) ==
              ContextItems(flowUuid, jid) + (AxisExports(axes) + TailAfterAxes(params))
  {
    HeaderByAxes(flowUuid, jid, axes, params);
    AssociateThree(ContextItems(flowUuid, jid), AxisExports(axes), TailAfterAxes(params));
  }

  lemma ContextExports(flowUuid: string, jid: string)
    ensures var own := ContextItems(flowUuid, jid);
            && |own| == 6
            && own[4] == Export("JM_FLOW_UUID", flowUuid) && NoneExports(own[5..], "JM_FLOW_UUID")
            && own[5] == Export("JM_JOB_ID", jid) && NoneExports(own[6..], "JM_JOB_ID")
  {
    var own := ContextItems(flowUuid, jid);
    assert own[6..] == [] && own[5..] == [own[5]];
    assert "JM_JOB_ID"[3] == 'J' && "JM_FLOW_UUID"[3] == 'F';
  }

  lemma FirstSectionKeepsLast(sec: seq<Item>, rest: seq<Item>, i: nat)
    requires i < |sec| && sec[i].Export?
    requires NoneExports(sec[i + 1..], sec[i].name) && NoneExports(rest, sec[i].name)
    ensures sec[i].name in EnvOf(sec + rest) && EnvOf(sec + rest)[sec[i].name] == sec[i].value
  {
    EmptyBase(sec);
    SectionKeepsLast([], sec, rest, i);
  }

  /** The job's own variables are never overridden by an axis or a parameter. */
  lemma ContextVariables(flowUuid: string, jid: string, axes: Axes, params: map<string, TomlValue>)
    ensures var env := EnvOf(HeaderItems(flowUuid, jid, axes, params));
            && "JM_FLOW_UUID" in env && env["JM_FLOW_UUID"] == flowUuid
            && "JM_JOB_ID" in env && env["JM_JOB_ID"] == jid
  {
    var own, rest := ContextItems(flowUuid, jid), AxisExports(axes) + TailAfterAxes(params);
    ContextExports(flowUuid, jid);
    LaterSectionsAreSilent(axes, params, "JM_FLOW_UUID");
    LaterSectionsAreSilent(axes, params, "JM_JOB_ID");
    FirstSectionKeepsLast(own, rest, 4);
    FirstSectionKeepsLast(own, rest, 5);
    HeaderByContext(flowUuid, jid, axes, params);
  }

  // ---- Which names are set ----

  predicate AxisName(axes: Axes, name: string) {
    exists i | 0 <= i < |axes| :: name == "JM_AXIS_" + SanitizeVarName(axes[i].0)
  }

  predicate ParamName(params: map<string, TomlValue>, name: string) {
    exists k | k in params :: name == "JM_PARAM_" + SanitizeVarName(k)
  }

  lemma ContextNames(flowUuid: string, jid: string, name: string)
    ensures NoneExports(ContextItems(flowUuid, jid), name) <==> name != "JM_FLOW_UUID" && name != "JM_JOB_ID"
  {
    var items := ContextItems(flowUuid, jid);
    assert Exports(items[4], name) <==> name == "JM_FLOW_UUID";
    assert Exports(items[5], name) <==> name == "JM_JOB_ID";
  }

  lemma AxisNames(axes: Axes, name: string)
    ensures NoneExports(AxisExports(axes), name) <==> !AxisName(axes, name)
  {
    var items := AxisExports(axes);
    assert forall i | 0 <= i < |axes| ::
        Exports(items[i], name) <==> name == "JM_AXIS_" + SanitizeVarName(axes[i].0);
  }

  lemma ParamNames(params: map<string, TomlValue>, name: string)
    ensures NoneExports(TailAfterAxes(params), name) <==> !ParamName(params, name)
  {
    var keys := SortedKeys(params.Keys);
    var items := ParamExports(params, keys);
    SilentConcat(items, BodyHeading(), name);
    SilentConcat(ParamHeading(), items + BodyHeading(), name);
    assert forall i | 0 <= i < |keys| ::
        Exports(items[i], name) <==> name == "JM_PARAM_" + SanitizeVarName(keys[i]);
    forall k | k in params && name == "JM_PARAM_" + SanitizeVarName(k) ensures !NoneExports(items, name) {
      assert k in keys;
      var i :| 0 <= i < |keys| && keys[i] == k;
      assert Exports(items[i], name);
    }
    if !NoneExports(items, name) {
      var i :| 0 <= i < |items| && Exports(items[i], name);
      assert keys[i] in keys && keys[i] in params;
    }
  }

  /** The header sets its two own variables, one per axis and one per parameter, and no other. */
  lemma HeaderNames(flowUuid: string, jid: string, axes: Axes, params: map<string, TomlValue>, name: string)
    ensures name in EnvOf(HeaderItems(flowUuid, jid, axes, params)) <==>
              name == "JM_FLOW_UUID" || name == "JM_JOB_ID" || AxisName(axes, name) || ParamName(params, name)
  {
    var items, context := HeaderItems(flowUuid, jid, axes, params), ContextItems(flowUuid, jid);
    EnvOnlyExports(items, name);
    assert name in EnvOf(items) <==> !NoneExports(items, name);
    HeaderByAxes(flowUuid, jid, axes, params);
    SilentConcat(context + AxisExports(axes), TailAfterAxes(params), name);
    SilentConcat(context, AxisExports(axes), name);
    ContextNames(flowUuid, jid, name);
    AxisNames(axes, name);
    ParamNames(params, name);
  }

  // ---- What a job finds when its script runs ----

  /** No later axis sanitizes to the same name. */
  predicate LastAxis(axes: Axes, i: nat)
    requires i < |axes|
  {
    forall k | i < k < |axes| :: SanitizeVarName(axes[k].0) != SanitizeVarName(axes[i].0)
  }

  /** No later key, in key order, sanitizes to the same name. */
  ghost predicate LastParam(params: map<string, TomlValue>, k: string) {
    forall l | l in params && Less(k, l) :: SanitizeVarName(l) != SanitizeVarName(k)
  }

  ghost predicate JobEnv(env: Env, flowUuid: string, jid: string, axes: Axes, params: map<string, TomlValue>) {
    && "JM_FLOW_UUID" in env && env["JM_FLOW_UUID"] == flowUuid
    && "JM_JOB_ID" in env && env["JM_JOB_ID"] == jid
    && (forall i: nat | i < |axes| && LastAxis(axes, i) ::
          var name := "JM_AXIS_" + SanitizeVarName(axes[i].0);
          name in env && env[name] == Decimal(axes[i].1))
    && (forall k | k in params && LastParam(params, k) ::
          var name := "JM_PARAM_" + SanitizeVarName(k);
          name in env && env[name] == ValueText(params[k]))
    && forall name :: name in env <==>
         name == "JM_FLOW_UUID" || name == "JM_JOB_ID" || AxisName(axes, name) || ParamName(params, name)
  }

  /** The job's own body, ended by a newline. */
  predicate IsBody(rest: string, body: string) {
    && body <= rest && |rest| <= |body| + 1
    && rest != "" && rest[|rest| - 1] == '\n'
    && (body != "" && body[|body| - 1] == '\n' ==> rest == body)
  }

  /** `text` is a bash script; reading some of its lines from an empty environment sets exactly
      the job's variables and leaves its body. */
  ghost predicate RunsAs(text: string, flowUuid: string, jid: string, axes: Axes, params: map<string, TomlValue>,
                         body: string)
  {
    "#!/bin/bash\n" <= text
    && exists n: nat, rest: string, env: Env ::
         ReadItems(n, text, map[]) == Some((rest, env))
         && IsBody(rest, body) && JobEnv(env, flowUuid, jid, axes, params)
  }

  lemma BodyTextIsBody(body: string)
    ensures IsBody(BodyText(body), body)
  {
  }

  lemma HeaderSetsJobEnv(flowUuid: string, jid: string, axes: Axes, params: map<string, TomlValue>)
    ensures JobEnv(EnvOf(HeaderItems(flowUuid, jid, axes, params)), flowUuid, jid, axes, params)
  {
    ContextVariables(flowUuid, jid, axes, params);
    forall i: nat | i < |axes| && LastAxis(axes, i)
      ensures var env, name := EnvOf(HeaderItems(flowUuid, jid, axes, params)), "JM_AXIS_" + SanitizeVarName(axes[i].0);
              name in env && env[name] == Decimal(axes[i].1)
    {
      AxisVariable(flowUuid, jid, axes, params, i);
    }
    forall k | k in params && LastParam(params, k)
      ensures var env, name := EnvOf(HeaderItems(flowUuid, jid, axes, params)), "JM_PARAM_" + SanitizeVarName(k);
              name in env && env[name] == ValueText(params[k])
    {
      ParamVariable(flowUuid, jid, axes, params, k);
    }
    forall name
      ensures name in EnvOf(HeaderItems(flowUuid, jid, axes, params)) <==>
                name == "JM_FLOW_UUID" || name == "JM_JOB_ID" || AxisName(axes, name) || ParamName(params, name)
    {
      HeaderNames(flowUuid, jid, axes, params, name);
    }
  }

  lemma FirstItemFirst(items: seq<Item>)
    requires items != []
    ensures ItemText()(items[0]) <= Text(items)
  {
    FlatMapPrefix(items, 1, ItemText());
    assert items[..1][..0] == [] && items[..1][0] == items[0];
  }

  lemma PrefixExtends(a: string, b: string, c: string)
    requires a <= b
    ensures a <= b + c
  {
  }

  lemma ShebangLine()
    ensures ItemText()(Comment(SHEBANG)) == "#!/bin/bash\n"
  {
  }

  lemma HeaderOpens(flowUuid: string, jid: string, axes: Axes, params: map<string, TomlValue>)
    ensures var items := HeaderItems(flowUuid, jid, axes, params);
            items != [] && items[0] == Comment(SHEBANG)
  {
    HeaderByContext(flowUuid, jid, axes, params);
  }

  lemma OpensWithShebang(flowUuid: string, jid: string, axes: Axes, params: map<string, TomlValue>, body: string)
    ensures "#!/bin/bash\n" <= Rendered(flowUuid, jid, axes, params, body)
  {
    var items := HeaderItems(flowUuid, jid, axes, params);
    HeaderOpens(flowUuid, jid, axes, params);
    FirstItemFirst(items);
    ShebangLine();
    PrefixExtends(ItemText()(Comment(SHEBANG)), Text(items), BodyText(body));
  }

  /** The rendered script runs as the job it was rendered for. */
  lemma RenderedRunsAs(flowUuid: string, jid: string, axes: Axes, params: map<string, TomlValue>, body: string)
    ensures RunsAs(Rendered(flowUuid, jid, axes, params, body), flowUuid, jid, axes, params, body)
  {
    OpensWithShebang(flowUuid, jid, axes, params, body);
    ScriptReadsBack(flowUuid, jid, axes, params, body);
    HeaderSetsJobEnv(flowUuid, jid, axes, params);
    BodyTextIsBody(body);
  }

  // ---- Values and names as text ----

  /** A string is itself; a boolean is its name. */
  lemma PlainTexts(s: string, b: bool)
    ensures ValueText(TomlString(s)) == s
    ensures ValueText(Boolean(b)) == "true" <==> b
    ensures ValueText(Boolean(b)) == "false" <==> !b
  {
  }

  /** An optional minus sign, then digits. */
  function ReadInteger(s: string): Option<int> {
    if s != "" && s[0] == '-' then
      if AllDigits(s[1..]) then Some(0 - DigitsValue(s[1..])) else None
    else if AllDigits(s) then Some(DigitsValue(s))
    else None
  }

  lemma DigitsReadBack(d: string)
    requires d != "" && AllDigits(d)
    ensures ReadInteger(d) == Some(DigitsValue(d)) && ReadInteger("-" + d) == Some(0 - DigitsValue(d))
  {
    assert ("-" + d)[1..] == d && IsDigit(d[0]);
  }

  /** An integer reads back, sign included. */
  lemma IntegerReadsBack(i: int)
    ensures ReadInteger(ValueText(Integer(i))) == Some(i)
  {
    var n: nat := if i < 0 then -i else i;
    DecimalIsDigits(n);
    DecimalValue(n);
    DigitsReadBack(Decimal(n));
  }

  lemma {:induction false} JoinIsOwn(v: TomlValue, w: TomlValue, items: seq<TomlValue>)
    requires forall i | 0 <= i < |items| :: items[i] < v && items[i] < w
    ensures JoinTexts(v, items) == JoinTexts(w, items)
  {
    if |items| > 1 {
      JoinIsOwn(v, w, items[1..]);
    }
  }

  /** An array is the texts of its items, in order, with one space between two of them. */
  lemma {:induction false} ArrayTexts(xs: seq<TomlValue>, ys: seq<TomlValue>, v: TomlValue)
    ensures ValueText(Array([])) == ""
    ensures ValueText(Array([v])) == ValueText(v)
    ensures xs != [] && ys != [] ==>
              ValueText(Array(xs + ys)) == ValueText(Array(xs)) + " " + ValueText(Array(ys))
    decreases |xs|
  {
    if xs != [] && ys != [] {
      var all := xs + ys;
      var rest := all[1..];
      assert rest == xs[1..] + ys && all[0] == xs[0];
      assert forall i | 0 <= i < |rest| :: rest[i] == all[i + 1];
      JoinIsOwn(Array(all), Array(rest), rest);
      if |xs| == 1 {
        assert rest == ys;
      } else {
        ArrayTexts(xs[1..], ys, v);
        assert forall i | 0 <= i < |xs[1..]| :: xs[1..][i] == xs[i + 1];
        JoinIsOwn(Array(xs), Array(xs[1..]), xs[1..]);
        var a, b, c := ValueText(xs[0]), ValueText(Array(xs[1..])), ValueText(Array(ys));
        assert a + " " + (b + " " + c) == (a + " " + b) + " " + c;
      }
    }
  }

  /** Character by character: a small letter becomes its capital; a capital, a digit and '_' stay;
      anything else becomes '_'. */
  lemma SanitizedText(name: string, i: nat)
    requires i < |name|
    ensures |SanitizeVarName(name)| == |name|
    ensures var c, r := name[i], SanitizeVarName(name)[i];
            if c in LOWER then exists k | 0 <= k < 26 :: LOWER[k] == c && UPPER[k] == r
            else if c in UPPER || c in DIGITS || c == '_' then r == c
            else r == '_'
  {
    var c := name[i];
    SmallLetters(c);
    CapitalLetters(c);
    Digits(c);
    if 'a' <= c <= 'z' {
      LetterAt(c as int - 'a' as int);
    }
  }
}
