/** A tool policy overlay: as the form loads it and builds its body, and as the server
    normalizes that body before storing it. */
module Overlay {
  import opened Wrappers
  import opened JsText
  import opened JsonStrings
  import opened GroupText
  import opened TextControl
  import opened PolicyRules

  datatype Json = JText(text: Text) | JArray(items: seq<Json>) | JObject(fields: seq<(Text, Json)>) | JOther(id: int)

  /** How typed values are printed into a text control and read back from one. */
  datatype Codec = Codec(print_: Json -> Text, parse: Text -> Option<Json>)

  /** An optional field is a property the object has or has not. */
  datatype InputRule = InputRule(groups: seq<Text>, level: Level, value: Option<Json>, allow: Option<seq<Json>>,
      reason: Option<Text>)

  datatype Watermark = Never | Always | UntilApproved

  /** `extra` says that there are settings the form cannot save. */
  datatype Enforce = Enforce(watermark: Option<Watermark>, formats: Option<seq<Json>>, escalation: Option<Text>,
      extra: bool)

  datatype Policy = Policy(name: Option<Text>, inputAccess: Option<map<Text, seq<InputRule>>>,
                           visibility: Option<seq<Text>>, enforce: Option<Enforce>, defaults: Option<Json>, extra: bool)

  // ---- the form ----

  /** One rule being edited, with the texts it started from. A new rule has no original. */
  datatype Draft = Draft(groups: Text, groupsText: Text, level: Level, value: Text, valueText: Text,
                         allow: Text, allowText: Text, reason: Text, original: Option<InputRule>)

  datatype Form = Form(original: Policy, name: Text, visibility: Text, visibilityText: Text,
                       watermark: Option<Watermark>, chain: Text, model: map<Text, seq<Draft>>)

  function Or<T>(o: Option<T>, d: T): T {
    match o case None => d case Some(v) => v
  }

  function ShowValue(codec: Codec, value: Option<Json>): Text {
    match value
    case None => []
    case Some(JText(text)) => text
    case Some(v) => codec.print_(v)
  }

  function LoadRule(codec: Codec, r: InputRule): Draft {
    var allow := codec.print_(JArray(Or(r.allow, [])));
    Draft(ShowGroups(r.groups), ShowGroups(r.groups), r.level, ShowValue(codec, r.value), ShowValue(codec, r.value),
          allow, allow, Or(r.reason, []), Some(r))
  }

  function LoadRules(codec: Codec, rules: seq<InputRule>): seq<Draft> {
    seq(|rules|, i requires 0 <= i < |rules| => LoadRule(codec, rules[i]))
  }

  /** The name and the visibility stand in text controls, which keep no line break. */
  function Load(codec: Codec, o: Policy): Form {
    var shown := match o.visibility case None => [] case Some(groups) => ShowGroups(groups);
    var model :=
      match o.inputAccess
      case None => map[]
      case Some(access) => map id | id in access :: LoadRules(codec, access[id]);
    Form(o, Kept(Or(o.name, [])), Kept(shown), shown, if o.enforce.Some? then o.enforce.value.watermark else None,
         if o.enforce.Some? then Or(o.enforce.value.escalation, []) else [], model)
  }

  function ParseValue(codec: Codec, text: Text): Json {
    match codec.parse(Trim(text)) case None => JText(text) case Some(v) => v
  }

  function NonEmptyTexts(texts: seq<Text>): seq<Text> {
    if texts == [] then []
    else if texts[0] == [] then NonEmptyTexts(texts[1..])
    else [texts[0]] + NonEmptyTexts(texts[1..])
  }

  /** The allowed choices of a rule, or nothing when the text holds none. */
  function AllowOf(codec: Codec, d: Draft): Option<seq<Json>> {
    var allow :=
      if d.allow == d.allowText && d.original.Some? && d.original.value.allow.Some? then d.original.value.allow
      else if InkStartsWith(d.allow, OPEN) then
        match codec.parse(d.allow) case Some(JArray(items)) => Some(items) case _ => None
      else
        var texts := NonEmptyTexts(TrimAll(Split(d.allow, COMMA)));
        Some(seq(|texts|, i requires 0 <= i < |texts| => ParseValue(codec, texts[i])));
    if allow == Some([]) then None else allow
  }

  function GroupsIn(d: Draft): seq<Text> {
    if d.groups == d.groupsText && d.original.Some? then d.original.value.groups else GroupsOrNone(d.groups)
  }

  function NonBlank(text: Text): Option<Text> {
    if Trim(text) == [] then None else Some(Trim(text))
  }

  /** One rule of the body, or nothing when the form refuses it. */
  function EntryOf(codec: Codec, d: Draft): Option<InputRule> {
    if GroupsIn(d) == [] || (d.level.Choice? && AllowOf(codec, d).None?) then None
    else
      var value :=
        if !d.level.Locked? then None
        else if d.value == d.valueText && d.original.Some? && d.original.value.level.Locked? then d.original.value.value
        else Some(ParseValue(codec, d.value));
      Some(InputRule(GroupsIn(d), d.level, value, if d.level.Choice? then AllowOf(codec, d) else None,
                     NonBlank(d.reason)))
  }

  predicate EntriesOk(codec: Codec, drafts: seq<Draft>) {
    forall i :: 0 <= i < |drafts| ==> EntryOf(codec, drafts[i]).Some?
  }

  function Entries(codec: Codec, drafts: seq<Draft>): (rules: seq<InputRule>)
    requires EntriesOk(codec, drafts)
    ensures |rules| == |drafts|
  {
    seq(|drafts|, i requires 0 <= i < |drafts| => EntryOf(codec, drafts[i]).value)
  }

  /** The enforcement the form sends: what it keeps, and the two settings it edits. */
  function EnforceOf(f: Form): Option<Enforce> {
    var kept := Or(f.original.enforce, Enforce(None, None, None, false));
    var e := kept.(watermark := f.watermark, escalation := if f.chain == [] then None else Some(f.chain));
    if e == Enforce(None, None, None, false) then None else Some(e)
  }

  function VisibleOf(f: Form): seq<Text> {
    if f.visibility == f.visibilityText && f.original.visibility.Some? then f.original.visibility.value
    else GroupsOrNone(f.visibility)
  }

  function AccessOf(codec: Codec, model: map<Text, seq<Draft>>): map<Text, seq<InputRule>>
    requires forall id :: id in model ==> EntriesOk(codec, model[id])
  {
    map id | id in model && model[id] != [] :: Entries(codec, model[id])
  }

  /** Nothing in the form stands in the way of saving it. */
  predicate CanSave(codec: Codec, f: Form) {
    && !f.original.extra && (f.original.enforce.Some? ==> !f.original.enforce.value.extra)
    && (forall id :: id in f.model ==> EntriesOk(codec, f.model[id]))
    && ((f.visibility == f.visibilityText && f.original.visibility.Some?) || GroupsOf(f.visibility).Some?)
  }

  /** The body a save sends. */
  function BodyOf(codec: Codec, f: Form): Policy
    requires CanSave(codec, f)
  {
    var access := AccessOf(codec, f.model);
    Policy(NonBlank(f.name), if access == map[] then None else Some(access),
           if VisibleOf(f) == [] then None else Some(VisibleOf(f)), EnforceOf(f), f.original.defaults, false)
  }

  // ---- the server ----

  const NAME_MAX := 80
  const REASON_MAX := 200

  /** Trimmed and cut to `max` units; blank is absent. */
  function CleanText(text: Option<Text>, max: nat): Option<Text> {
    if text.None? then None
    else
      var t := Trim(text.value);
      var cut := if |t| > max then t[..max] else t;
      if cut == [] then None else Some(cut)
  }

  function NormalizeRule(r: InputRule): Option<InputRule> {
    var groups := Clean(r.groups);
    if groups == [] || (r.level.Choice? && (r.allow.None? || r.allow.value == [])) then None
    else Some(InputRule(groups, r.level, if r.level.Locked? then r.value else None,
                        if r.level.Choice? then r.allow else None, CleanText(r.reason, REASON_MAX)))
  }

  predicate RulesOk(rules: seq<InputRule>) {
    forall i :: 0 <= i < |rules| ==> NormalizeRule(rules[i]).Some?
  }

  function NormalizeRules(rules: seq<InputRule>): (out: seq<InputRule>)
    requires RulesOk(rules)
    ensures |out| == |rules|
  {
    seq(|rules|, i requires 0 <= i < |rules| => NormalizeRule(rules[i]).value)
  }

  function NormalizeAccess(access: map<Text, seq<InputRule>>): Option<map<Text, seq<InputRule>>> {
    if [] in access || !(forall id :: id in access ==> RulesOk(access[id])) then None
    else Some(map id | id in access && access[id] != [] :: NormalizeRules(access[id]))
  }

  function TextFormats(formats: seq<Json>): seq<Json> {
    if formats == [] then []
    else if formats[0].JText? && formats[0].text != [] then [formats[0]] + TextFormats(formats[1..])
    else TextFormats(formats[1..])
  }

  predicate SlugUnit(u: Unit) {
    0x61 <= u <= 0x7A || 0x30 <= u <= 0x39 || u == 0x2D
  }

  /** A chain id the server takes. */
  predicate IsSlug(t: Text) {
    1 <= |t| <= 128 && t[0] != 0x2D && forall i :: 0 <= i < |t| ==> SlugUnit(t[i])
  }

  /** The enforcement that is stored, or nothing when the server refuses it. */
  function NormalizeEnforce(e: Enforce): Option<Enforce> {
    if e.escalation.Some? && e.escalation.value != [] && !IsSlug(e.escalation.value) then None
    else
      var formats := if e.formats.Some? then TextFormats(e.formats.value) else [];
      Some(Enforce(e.watermark, if formats == [] then None else Some(formats),
                   if e.escalation == Some([]) then None else e.escalation, false))
  }

  /** The settings that are stored, or nothing when the server refuses the body. */
  function Normalize(body: Policy): Option<Policy> {
    var access := match body.inputAccess case None => Some(map[]) case Some(a) => NormalizeAccess(a);
    var enforce :=
      match body.enforce
      case None => Some(Enforce(None, None, None, false))
      case Some(e) => NormalizeEnforce(e);
    if access.None? || enforce.None? || (body.visibility.Some? && Clean(body.visibility.value) == [])
       || (body.defaults.Some? && !body.defaults.value.JObject?)
    then None
    else
      Some(Policy(CleanText(body.name, NAME_MAX), if access.value == map[] then None else access,
                  if body.visibility.Some? then Some(Clean(body.visibility.value)) else None,
                  if enforce.value == Enforce(None, None, None, false) then None else enforce,
                  if body.defaults == Some(JObject([])) then None else body.defaults, false))
  }
}
