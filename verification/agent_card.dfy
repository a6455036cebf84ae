/** The capability card an agent publishes: its skills, the interaction
    modes it supports, and the defaulting rules applied when a card is read
    back from JSON. */
module AgentCards {
  import opened Wrappers
  import opened JsonValue

  // ------------------------------------------------------ interaction modes

  datatype InteractionMode = Text | Form | Audio | Video | File

  /** The wire string of a mode (`InteractionMode.value`). */
  function ModeValue(m: InteractionMode): string {
    match m
    case Text => "text"
    case Form => "form"
    case Audio => "audio"
    case Video => "video"
    case File => "file"
  }

  /** The enumeration has exactly these five members, with five distinct values. */
  function AllModes(): (all: seq<InteractionMode>)
    ensures |all| == 5
    ensures forall i, j :: 0 <= i < j < |all| ==> ModeValue(all[i]) != ModeValue(all[j])
  {
    [Text, Form, Audio, Video, File]
  }

  /** Every mode is listed. */
  lemma {:induction false} AllModesComplete(m: InteractionMode)
    ensures m in AllModes()
  {
    var all := AllModes();
    match m
    case Text => assert all[0] == m;
    case Form => assert all[1] == m;
    case Audio => assert all[2] == m;
    case Video => assert all[3] == m;
    case File => assert all[4] == m;
  }

  /** `InteractionMode(v)`: accepts exactly the five mode strings. */
  function ParseMode(j: Json): (r: Result<InteractionMode, string>)
    ensures r.Success? <==> exists m: InteractionMode :: j == JStr(ModeValue(m))
    ensures r.Success? ==> j == JStr(ModeValue(r.value))
    ensures r.Failure? ==> r.error == PyRepr(j) + " is not a valid InteractionMode"
  {
    if j == JStr(ModeValue(Text)) then Success(Text)
    else if j == JStr(ModeValue(Form)) then Success(Form)
    else if j == JStr(ModeValue(Audio)) then Success(Audio)
    else if j == JStr(ModeValue(Video)) then Success(Video)
    else if j == JStr(ModeValue(File)) then Success(File)
    else
      assert forall m: InteractionMode :: m.Text? || m.Form? || m.Audio? || m.Video? || m.File?;
      Failure(PyRepr(j) + " is not a valid InteractionMode")
  }

  /** `[mode.value for mode in modes]`. */
  function EncodeModes(ms: seq<InteractionMode>): (js: seq<Json>)
    ensures |js| == |ms|
    ensures forall i :: 0 <= i < |ms| ==> js[i] == JStr(ModeValue(ms[i]))
  {
    seq(|ms|, i requires 0 <= i < |ms| => JStr(ModeValue(ms[i])))
  }

  /** `[InteractionMode(m) for m in items]`: fails on the first unknown mode string. */
  function DecodeModes(items: seq<Json>): (r: Result<seq<InteractionMode>, string>)
    ensures r.Success? <==> forall i :: 0 <= i < |items| ==> ParseMode(items[i]).Success?
    ensures r.Success? ==> |r.value| == |items|
    ensures r.Success? ==> forall i :: 0 <= i < |items| ==> items[i] == JStr(ModeValue(r.value[i]))
  {
    DecodeEach(items, ParseMode)
  }

  /** Parsing the wire string of a mode gives the mode back. */
  lemma ParseModeValue(m: InteractionMode)
    ensures ParseMode(JStr(ModeValue(m))) == Success(m)
  {
    match m
    case Text =>
    case Form =>
    case Audio =>
    case Video =>
    case File =>
  }

  lemma ModesRoundTrip(ms: seq<InteractionMode>)
    ensures DecodeModes(EncodeModes(ms)) == Success(ms)
  {
    var js := EncodeModes(ms);
    forall i | 0 <= i < |ms|
      ensures ParseMode(js[i]) == Success(ms[i])
    {
      ParseModeValue(ms[i]);
    }
    var r := DecodeModes(js);
    assert r.Success?;
    assert forall i :: 0 <= i < |ms| ==> ParseMode(js[i]) == Success(r.value[i]);
    assert r.value == ms;
  }

  // ---------------------------------------------------------------- skills

  datatype Skill = Skill(name: string, description: string, parameters: Object, modes: seq<InteractionMode>)

  /** `Skill(name, description, ...)`: parameters default to `{}` and modes to `[TEXT]`. */
  function NewSkill(name: string, description: string, parameters: Option<Object>,
                    modes: Option<seq<InteractionMode>>): (s: Skill)
    ensures s.name == name && s.description == description
    ensures parameters.None? ==> s.parameters == map[]
    ensures parameters.Some? ==> s.parameters == parameters.value
    ensures modes.None? ==> s.modes == [Text]
    ensures modes.Some? ==> s.modes == modes.value
  {
    Skill(name, description, parameters.GetOr(map[]), modes.GetOr([Text]))
  }

  /** `Skill.to_dict`. */
  function EncodeSkill(s: Skill): (o: Object)
    ensures o.Keys == {"name", "description", "parameters", "interaction_modes"}
    ensures o["name"] == JStr(s.name) && o["description"] == JStr(s.description)
    ensures o["parameters"] == JObj(s.parameters)
    ensures o["interaction_modes"] == JArr(EncodeModes(s.modes))
  {
    map["name" := JStr(s.name), "description" := JStr(s.description),
        "parameters" := JObj(s.parameters), "interaction_modes" := JArr(EncodeModes(s.modes))]
  }

  /** One element of the skill list in `AgentCard.from_dict`: `name` and
      `description` are required, `parameters` defaults to `{}` and
      `interaction_modes` to `["text"]`. */
  function DecodeSkill(data: Json): (r: Result<Skill, string>)
    ensures data.JObj? && ("name" !in data.fields || "description" !in data.fields) ==> r.Failure?
    ensures r.Success? ==> data.JObj? && data.fields["name"] == JStr(r.value.name)
    ensures r.Success? ==> data.fields["description"] == JStr(r.value.description)
    ensures r.Success? ==> ("parameters" !in data.fields ==> r.value.parameters == map[])
    ensures r.Success? ==> ("interaction_modes" !in data.fields ==> r.value.modes == [Text])
  {
    match data
    case JObj(obj) =>
      var nameField :- Field(obj, "name");
      var name :- AsString(nameField, "name");
      var descriptionField :- Field(obj, "description");
      var description :- AsString(descriptionField, "description");
      var parameters :- AsObject(Lookup(obj, "parameters", JObj(map[])), "parameters");
      var modeItems :- AsList(Lookup(obj, "interaction_modes", JArr([JStr("text")])), "interaction_modes");
      var modes :- DecodeModes(modeItems);
      Success(Skill(name, description, parameters, modes))
    case _ => Subscript(data, "name").PropagateFailure()
  }

  lemma SkillRoundTrip(s: Skill)
    ensures DecodeSkill(JObj(EncodeSkill(s))) == Success(s)
  {
    ModesRoundTrip(s.modes);
  }

  function EncodeSkills(ss: seq<Skill>): (js: seq<Json>)
    ensures |js| == |ss|
    ensures forall i :: 0 <= i < |ss| ==> js[i] == JObj(EncodeSkill(ss[i]))
  {
    seq(|ss|, i requires 0 <= i < |ss| => JObj(EncodeSkill(ss[i])))
  }

  function DecodeSkills(items: seq<Json>): (r: Result<seq<Skill>, string>)
    ensures r.Success? <==> forall i :: 0 <= i < |items| ==> DecodeSkill(items[i]).Success?
    ensures r.Success? ==> |r.value| == |items|
    ensures r.Success? ==> forall i :: 0 <= i < |items| ==> DecodeSkill(items[i]) == Success(r.value[i])
  {
    DecodeEach(items, DecodeSkill)
  }

  lemma SkillsRoundTrip(ss: seq<Skill>)
    ensures DecodeSkills(EncodeSkills(ss)) == Success(ss)
  {
    var js := EncodeSkills(ss);
    forall i | 0 <= i < |ss|
      ensures DecodeSkill(js[i]) == Success(ss[i])
    {
      SkillRoundTrip(ss[i]);
    }
    var r := DecodeSkills(js);
    assert r.Success?;
    assert r.value == ss;
  }

  // ----------------------------------------------------------------- cards

  datatype AgentCard = AgentCard(
    name: string,
    description: string,
    url: string,
    skills: seq<Skill>,
    version: string,
    modes: seq<InteractionMode>,
    metadata: Option<Object>)

  /** `AgentCard(name, description, url, skills, ...)`: the version defaults to
      "1.0", the supported modes to `[TEXT]` and the metadata to `None`. */
  function NewCard(name: string, description: string, url: string, skills: seq<Skill>,
                   version: Option<string>, modes: Option<seq<InteractionMode>>, metadata: Option<Object>): (c: AgentCard)
    ensures c.name == name && c.description == description && c.url == url && c.skills == skills
    ensures c.metadata == metadata
    ensures version.None? ==> c.version == "1.0"
    ensures version.Some? ==> c.version == version.value
    ensures modes.None? ==> c.modes == [Text]
    ensures modes.Some? ==> c.modes == modes.value
  {
    AgentCard(name, description, url, skills, version.GetOr("1.0"), modes.GetOr([Text]), metadata)
  }

  /** `AgentCard.to_dict`: skills in order, modes as their string values,
      `None` metadata as `{}`. */
  function EncodeCard(c: AgentCard): (o: Object)
    ensures o.Keys == {"name", "description", "url", "version", "skills", "supported_interaction_modes", "metadata"}
    ensures o["name"] == JStr(c.name) && o["description"] == JStr(c.description) && o["url"] == JStr(c.url)
    ensures o["version"] == JStr(c.version)
    ensures o["skills"] == JArr(EncodeSkills(c.skills))
    ensures o["supported_interaction_modes"] == JArr(EncodeModes(c.modes))
    ensures o["metadata"] == JObj(ObjectOrEmpty(c.metadata))
  {
    map["name" := JStr(c.name), "description" := JStr(c.description), "url" := JStr(c.url),
        "version" := JStr(c.version), "skills" := JArr(EncodeSkills(c.skills)),
        "supported_interaction_modes" := JArr(EncodeModes(c.modes)),
        "metadata" := JObj(ObjectOrEmpty(c.metadata))]
  }

  /** `AgentCard.from_dict`: the skills are read first; `name`, `description`
      and `url` are required; `skills` defaults to `[]`, `version` to "1.0",
      the supported modes to `["text"]` and the metadata to `None`. */
  function DecodeCard(data: Json): (r: Result<AgentCard, string>)
    ensures data.JObj? && ("name" !in data.fields || "description" !in data.fields || "url" !in data.fields) ==> r.Failure?
    ensures r.Success? ==> data.JObj? && data.fields["name"] == JStr(r.value.name)
    ensures r.Success? ==> data.fields["description"] == JStr(r.value.description)
    ensures r.Success? ==> data.fields["url"] == JStr(r.value.url)
    ensures r.Success? ==> ("skills" !in data.fields ==> r.value.skills == [])
    ensures r.Success? ==> ("version" !in data.fields ==> r.value.version == "1.0")
    ensures r.Success? ==> ("supported_interaction_modes" !in data.fields ==> r.value.modes == [Text])
    ensures r.Success? ==> ("metadata" !in data.fields ==> r.value.metadata.None?)
    ensures r.Success? && "supported_interaction_modes" in data.fields ==>
      data.fields["supported_interaction_modes"] == JArr(EncodeModes(r.value.modes))
  {
    match data
    case JObj(obj) =>
      var skillItems :- AsList(Lookup(obj, "skills", JArr([])), "skills");
      var skills :- DecodeSkills(skillItems);
      var nameField :- Field(obj, "name");
      var name :- AsString(nameField, "name");
      var descriptionField :- Field(obj, "description");
      var description :- AsString(descriptionField, "description");
      var urlField :- Field(obj, "url");
      var url :- AsString(urlField, "url");
      var version :- AsString(Lookup(obj, "version", JStr("1.0")), "version");
      var modeItems :- AsList(Lookup(obj, "supported_interaction_modes", JArr([JStr("text")])), "supported_interaction_modes");
      var modes :- DecodeModes(modeItems);
      var metadata :- AsOptObject(Lookup(obj, "metadata", JNull), "metadata");
      assert EncodeModes(modes) == modeItems;
      Success(AgentCard(name, description, url, skills, version, modes, metadata))
    case _ => GetOr(data, "skills", JArr([])).PropagateFailure()
  }

  /** A mode list is accepted only when every element is one of the five mode strings. */
  lemma UnknownModeRejected(data: Json, i: nat)
    requires data.JObj? && "supported_interaction_modes" in data.fields
    requires data.fields["supported_interaction_modes"].JArr?
    requires i < |data.fields["supported_interaction_modes"].items|
    requires ParseMode(data.fields["supported_interaction_modes"].items[i]).Failure?
    ensures DecodeCard(data).Failure?
  {
    forall m: InteractionMode
      ensures ParseMode(JStr(ModeValue(m))).Success?
    {
      ParseModeValue(m);
    }
  }

  /** What survives encoding: `None` metadata comes back as `{}`. */
  function NormalizeCard(c: AgentCard): AgentCard {
    c.(metadata := Some(ObjectOrEmpty(c.metadata)))
  }

  /** `AgentCard.from_dict(c.to_dict())` is `c`, up to `None` metadata becoming `{}`. */
  lemma CardRoundTrip(c: AgentCard)
    ensures DecodeCard(JObj(EncodeCard(c))) == Success(NormalizeCard(c))
  {
    var o := EncodeCard(c);
    SkillsRoundTrip(c.skills);
    ModesRoundTrip(c.modes);
    DecodeCardFields(o, EncodeSkills(c.skills), c.skills, c.name, c.description, c.url, c.version,
                     EncodeModes(c.modes), c.modes, Some(ObjectOrEmpty(c.metadata)));
  }

  /** A card dict whose fields are all well typed decodes to exactly those fields. */
  lemma DecodeCardFields(o: Object, skillItems: seq<Json>, skills: seq<Skill>, name: string, description: string,
                         url: string, version: string, modeItems: seq<Json>, modes: seq<InteractionMode>,
                         metadata: Option<Object>)
    requires Lookup(o, "skills", JArr([])) == JArr(skillItems) && DecodeSkills(skillItems) == Success(skills)
    requires "name" in o && o["name"] == JStr(name)
    requires "description" in o && o["description"] == JStr(description)
    requires "url" in o && o["url"] == JStr(url)
    requires Lookup(o, "version", JStr("1.0")) == JStr(version)
    requires Lookup(o, "supported_interaction_modes", JArr([JStr("text")])) == JArr(modeItems)
    requires DecodeModes(modeItems) == Success(modes)
    requires AsOptObject(Lookup(o, "metadata", JNull), "metadata") == Success(metadata)
    ensures DecodeCard(JObj(o)) == Success(AgentCard(name, description, url, skills, version, modes, metadata))
  {
  }

  /** A card holding only the three required fields decodes with every default applied. */
  lemma MinimalCardDefaults(name: string, description: string, url: string)
    ensures DecodeCard(JObj(map["name" := JStr(name), "description" := JStr(description), "url" := JStr(url)]))
      == Success(NewCard(name, description, url, [], None, None, None))
  {
    var o := map["name" := JStr(name), "description" := JStr(description), "url" := JStr(url)];
    ModesRoundTrip([Text]);
    assert EncodeModes([Text]) == [JStr("text")];
    assert "skills" !in o && "version" !in o && "supported_interaction_modes" !in o && "metadata" !in o;
    DecodeCardFields(o, [], [], name, description, url, "1.0", [JStr("text")], [Text], None);
  }
}
