/**
 * A session record shows its current mode twice: as modes.currentModeId and as
 * the value of the config option whose category is "mode". Three operations
 * read a record, work out both views and write the record back; the model lets
 * each of them work from any earlier version of the record.
 */
module ModeSync {
  import opened Prelude

  /** `select` is true for options of type "select"; `values` are its choices, flattened. */
  datatype ConfigOption = ConfigOption(id: string, category: string, select: bool, values: seq<string>,
      currentValue: Option<string>)

  datatype Modes = Modes(currentModeId: string, availableModes: seq<string>)

  datatype Record = Record(modes: Option<Modes>, options: Option<seq<ConfigOption>>)

  const MODE: string := "mode"

  function FindByCategory(options: seq<ConfigOption>, category: string): Option<ConfigOption> {
    if options == [] then None
    else if options[0].category == category then Some(options[0])
    else FindByCategory(options[1..], category)
  }

  function FindById(options: seq<ConfigOption>, id: string): Option<ConfigOption> {
    if options == [] then None
    else if options[0].id == id then Some(options[0])
    else FindById(options[1..], id)
  }

  /** Sets the value of the first option with this id; None when there is none. */
  function ApplyConfigOptionValue(options: seq<ConfigOption>, id: string, value: string): Option<seq<ConfigOption>> {
    if options == [] then None
    else if options[0].id == id then Some([options[0].(currentValue := Some(value))] + options[1..])
    else
      match ApplyConfigOptionValue(options[1..], id, value)
      case None => None
      case Some(rest) => Some([options[0]] + rest)
  }

  function ApplyCurrentMode(modes: Option<Modes>, modeId: string): Modes {
    if modes.Some? then modes.value.(currentModeId := modeId) else Modes(modeId, [])
  }

  function DeriveModes(options: seq<ConfigOption>): Option<Modes> {
    var modeOption := FindByCategory(options, MODE);
    if modeOption.None? || !modeOption.value.select then None
    else
      var o := modeOption.value;
      Some(Modes(
        if o.currentValue.Some? && o.currentValue.value != "" then o.currentValue.value
        else if o.values != [] then o.values[0]
        else "",
        o.values))
  }

  /** hydrateSessionConfigOptions once the agent's options are in: the record to write. */
  function Hydrate(record: Record, info: seq<ConfigOption>): Record {
    var modeOption := FindByCategory(info, MODE);
    var applied :=
      if record.modes.Some? && record.modes.value.currentModeId != "" && modeOption.Some?
      then ApplyConfigOptionValue(info, modeOption.value.id, record.modes.value.currentModeId)
      else None;
    var options := if applied.Some? then applied.value else info;
    var derived := DeriveModes(options);
    Record(if derived.Some? then derived else record.modes, Some(options))
  }

  /** persistSessionStateFromMethod for session/set_mode. */
  function SetMode(record: Record, modeId: string): Record {
    if modeId == "" then record
    else
      var updated :=
        if record.options.Some? && FindByCategory(record.options.value, MODE).Some?
        then ApplyConfigOptionValue(record.options.value, FindByCategory(record.options.value, MODE).value.id, modeId)
        else None;
      Record(Some(ApplyCurrentMode(record.modes, modeId)), if updated.Some? then updated else record.options)
  }

  /** persistSessionStateFromMethod for session/set_config_option; `reply` is what the server sent back, if anything. */
  function SetConfigOption(record: Record, configId: string, value: string, reply: Option<seq<ConfigOption>>): Record {
    var options :=
      if reply.Some? then reply
      else if record.options.Some? && configId != "" && value != "" then
        var updated := ApplyConfigOptionValue(record.options.value, configId, value);
        if updated.Some? then updated else record.options
      else record.options;
    var isMode :=
      configId != "" && value != "" && options.Some?
      && FindById(options.value, configId).Some? && FindById(options.value, configId).value.category == MODE;
    Record(if isMode then Some(ApplyCurrentMode(record.modes, value)) else record.modes, options)
  }

  // ------------------------------------------------------------------ agreement

  /** Ids are unique, and at most one option is the mode option, with a value that is not empty. */
  ghost predicate WellFormed(options: seq<ConfigOption>) {
    && (forall i, j :: 0 <= i < j < |options| ==> options[i].id != options[j].id)
    && (forall i, j :: 0 <= i < j < |options| ==> !(options[i].category == MODE && options[j].category == MODE))
    && (forall i :: 0 <= i < |options| && options[i].category == MODE ==>
        options[i].currentValue.Some? && options[i].currentValue.value != "")
  }

  /** Whenever both views exist they name the same mode. */
  ghost predicate ViewsAgree(r: Record) {
    r.modes.Some? && r.options.Some? ==>
      forall o :: o in r.options.value && o.category == MODE ==> o.currentValue == Some(r.modes.value.currentModeId)
  }

  ghost predicate Good(r: Record) {
    && (r.options.Some? ==> WellFormed(r.options.value))
    && (r.modes.Some? ==> r.modes.value.currentModeId != "")
    && ViewsAgree(r)
  }

  /** `after` is `before` with the value of one option set, everything else in place. */
  ghost predicate OnlyChanges(before: seq<ConfigOption>, after: seq<ConfigOption>, k: int, value: string) {
    && |after| == |before| && 0 <= k < |before|
    && after == before[k := before[k].(currentValue := Some(value))]
  }

  lemma {:induction false} ApplyChangesOne(options: seq<ConfigOption>, id: string, value: string)
    ensures ApplyConfigOptionValue(options, id, value).None? ==> forall o :: o in options ==> o.id != id
    ensures ApplyConfigOptionValue(options, id, value).Some? ==>
              exists k :: OnlyChanges(options, ApplyConfigOptionValue(options, id, value).value, k, value) &&
                  options[k].id == id
  {
    if options != [] {
      if options[0].id == id {
        assert OnlyChanges(options, ApplyConfigOptionValue(options, id, value).value, 0, value);
      } else {
        ApplyChangesOne(options[1..], id, value);
        var rest := ApplyConfigOptionValue(options[1..], id, value);
        assert options == [options[0]] + options[1..];
        if rest.Some? {
          var k :| OnlyChanges(options[1..], rest.value, k, value) && options[1..][k].id == id;
          assert OnlyChanges(options, [options[0]] + rest.value, k + 1, value);
        }
      }
    }
  }

  lemma {:induction false} FindByCategoryFinds(options: seq<ConfigOption>, category: string)
    ensures FindByCategory(options, category).None? ==> forall o :: o in options ==> o.category != category
    ensures FindByCategory(options, category).Some? ==>
              FindByCategory(options, category).value in options &&
                  FindByCategory(options, category).value.category == category
  {
    if options != [] {
      FindByCategoryFinds(options[1..], category);
      assert options == [options[0]] + options[1..];
    }
  }

  lemma {:induction false} FindByIdFinds(options: seq<ConfigOption>, id: string)
    ensures FindById(options, id).None? ==> forall o :: o in options ==> o.id != id
    ensures FindById(options, id).Some? ==>
        FindById(options, id).value in options && FindById(options, id).value.id == id
  {
    if options != [] {
      FindByIdFinds(options[1..], id);
      assert options == [options[0]] + options[1..];
    }
  }

  /** Setting the mode option's value makes it, and no other mode option, show that value. */
  lemma ApplyToModeOption(options: seq<ConfigOption>, value: string)
    requires WellFormed(options) && value != "" && FindByCategory(options, MODE).Some?
    ensures var after := ApplyConfigOptionValue(options, FindByCategory(options, MODE).value.id, value);
      && after.Some? && WellFormed(after.value)
      && (forall o :: o in after.value && o.category == MODE ==> o.currentValue == Some(value))
      && (exists k :: OnlyChanges(options, after.value, k, value) && options[k].category == MODE)
  {
    FindByCategoryFinds(options, MODE);
    var o := FindByCategory(options, MODE).value;
    ApplyChangesOne(options, o.id, value);
    var after := ApplyConfigOptionValue(options, o.id, value).value;
    var k :| OnlyChanges(options, after, k, value) && options[k].id == o.id;
    var m :| 0 <= m < |options| && options[m] == o;
    assert k == m;
  }

  /** The record is in mode `modeId`, in both views where it has both. */
  ghost predicate Shows(r: Record, modeId: string) {
    && r.modes.Some? && r.modes.value.currentModeId == modeId
    && (r.options.Some? ==> forall o :: o in r.options.value && o.category == MODE ==> o.currentValue == Some(modeId))
  }

  function AvailableModes(r: Record): seq<string> {
    if r.modes.Some? then r.modes.value.availableModes else []
  }

  lemma SetModeKeepsAgreement(r: Record, modeId: string)
    requires Good(r)
    ensures Good(SetMode(r, modeId))
    ensures r.options.Some? && SetMode(r, modeId).options != r.options ==>
              SetMode(r, modeId).options.Some?
              && exists k :: OnlyChanges(r.options.value, SetMode(r, modeId).options.value, k, modeId) &&
                  r.options.value[k].category == MODE
    ensures r.options.None? ==> SetMode(r, modeId).options.None?
    ensures modeId == "" ==> SetMode(r, modeId) == r
    ensures modeId != "" ==> Shows(SetMode(r, modeId), modeId)
    ensures modeId != "" ==> SetMode(r, modeId).modes.value.availableModes == AvailableModes(r)
  {
    if modeId != "" && r.options.Some? {
      FindByCategoryFinds(r.options.value, MODE);
      if FindByCategory(r.options.value, MODE).Some? {
        ApplyToModeOption(r.options.value, modeId);
      }
    }
  }

  lemma HydrateKeepsAgreement(r: Record, info: seq<ConfigOption>)
    requires Good(r) && WellFormed(info)
    ensures Good(Hydrate(r, info))
    ensures Hydrate(r, info).options.Some?
    ensures Hydrate(r, info).options.value != info ==>
              exists k, v :: OnlyChanges(info, Hydrate(r, info).options.value, k, v) && info[k].category == MODE
    // the mode that was set before the options were known stays
    ensures r.modes.Some? ==> Shows(Hydrate(r, info), r.modes.value.currentModeId)
    // otherwise the agent's own mode is taken over
    ensures r.modes.None? ==> Hydrate(r, info).options.value == info
    ensures forall o :: r.modes.None? && o in info && o.category == MODE && o.select ==>
        Shows(Hydrate(r, info), o.currentValue.value)
  {
    FindByCategoryFinds(info, MODE);
    if FindByCategory(info, MODE).Some? && r.modes.Some? {
      ApplyToModeOption(info, r.modes.value.currentModeId);
    }
    var options := Hydrate(r, info).options.value;
    FindByCategoryFinds(options, MODE);
    if FindByCategory(options, MODE).Some? {
      OnlyModeOption(options, FindByCategory(options, MODE).value);
    }
  }

  /** Setting a value leaves the choices of every option as they were. */
  lemma {:induction false} ApplyKeepsChoices(options: seq<ConfigOption>, id: string, value: string, category: string)
    requires ApplyConfigOptionValue(options, id, value).Some?
    ensures var found := FindByCategory(options, category);
      var after := FindByCategory(ApplyConfigOptionValue(options, id, value).value, category);
      && (found.Some? <==> after.Some?)
      && (found.Some? ==> after.value == found.value.(currentValue := after.value.currentValue))
  {
    if options[0].id != id && options[0].category != category {
      ApplyKeepsChoices(options[1..], id, value, category);
    }
  }

  /**
   * The choices of mode after hydrating are those of the agent's mode option,
   * and where it has none to choose from the modes stay as they were.
   */
  lemma HydrateTakesTheChoices(r: Record, info: seq<ConfigOption>)
    requires WellFormed(info)
    ensures forall o :: o in info && o.category == MODE && o.select ==> AvailableModes(Hydrate(r, info)) == o.values
    ensures (forall o :: o in info && o.category == MODE ==> !o.select) ==> Hydrate(r, info).modes == r.modes
  {
    FindByCategoryFinds(info, MODE);
    if FindByCategory(info, MODE).Some? {
      var o := FindByCategory(info, MODE).value;
      OnlyModeOption(info, o);
      if r.modes.Some? && ApplyConfigOptionValue(info, o.id, r.modes.value.currentModeId).Some? {
        ApplyKeepsChoices(info, o.id, r.modes.value.currentModeId, MODE);
      }
    }
  }

  /**
   * Where the agent's mode option has no value yet, the views part: the modes
   * take its first choice, and the option itself stays without a value.
   */
  lemma UnsetModeOptionParts(options: seq<ConfigOption>, info: ConfigOption)
    requires info.category == MODE && info.select && (info.currentValue.None? || info.currentValue == Some(""))
    requires forall o :: o in options ==> o.category != MODE
    ensures Hydrate(Record(None, None), options + [info]) ==
            Record(Some(Modes(if info.values == [] then "" else info.values[0], info.values)), Some(options + [info]))
  {
    FindByCategoryFinds(options, MODE);
    FindsLast(options, info);
  }

  lemma {:induction false} FindsLast(options: seq<ConfigOption>, o: ConfigOption)
    requires forall p :: p in options ==> p.category != o.category
    ensures FindByCategory(options + [o], o.category) == Some(o)
  {
    if options != [] {
      assert (options + [o])[1..] == options[1..] + [o];
      FindsLast(options[1..], o);
    }
  }

  lemma OnlyModeOption(options: seq<ConfigOption>, o: ConfigOption)
    requires WellFormed(options) && o in options && o.category == MODE
    ensures forall p :: p in options && p.category == MODE ==> p == o
    ensures o.currentValue.Some? && o.currentValue.value != ""
  {
    var i :| 0 <= i < |options| && options[i] == o;
    forall p | p in options && p.category == MODE ensures p == o {
      var j :| 0 <= j < |options| && options[j] == p;
    }
  }

  /**
   * A reply is either left out or echoes the change: well-formed options that
   * are the record's own with the requested value set, or, when the record has
   * none, options that hold the requested value and do not contradict the mode.
   */
  ghost predicate Echoes(r: Record, configId: string, value: string, reply: Option<seq<ConfigOption>>) {
    reply.Some? ==>
      && WellFormed(reply.value)
      && (r.options.Some? ==> reply == ApplyConfigOptionValue(r.options.value, configId, value))
      && (forall o :: o in reply.value && o.id == configId ==> o.currentValue == Some(value) && configId != "")
      && (r.options.None? && r.modes.Some? ==>
            forall o :: o in reply.value && o.category == MODE && o.id != configId ==>
                o.currentValue == Some(r.modes.value.currentModeId))
  }

  lemma SetConfigOptionKeepsAgreement(r: Record, configId: string, value: string, reply: Option<seq<ConfigOption>>)
    requires Good(r) && Echoes(r, configId, value, reply)
    ensures Good(SetConfigOption(r, configId, value, reply))
    ensures r.options.Some? && SetConfigOption(r, configId, value, reply).options != r.options ==>
              SetConfigOption(r, configId, value, reply).options.Some?
              && exists k :: OnlyChanges(r.options.value, SetConfigOption(r, configId, value, reply).options.value,
                  k, value) && r.options.value[k].id == configId
    // the option that was set shows its new value, and if it is the mode option so does the other view
    ensures var after := SetConfigOption(r, configId, value, reply);
      configId != "" && value != "" && after.options.Some? ==>
        forall o :: o in after.options.value && o.id == configId ==>
          o.currentValue == Some(value) && (o.category == MODE ==> Shows(after, value))
    ensures reply.Some? ==> SetConfigOption(r, configId, value, reply).options == reply
    // setting any other option leaves the modes alone, and setting the mode keeps the choices
    ensures var after := SetConfigOption(r, configId, value, reply);
      && (after.modes != r.modes ==>
          value != "" && Shows(after, value) && AvailableModes(after) == AvailableModes(r) &&
          after.options.Some? && exists o :: o in after.options.value && o.id == configId && o.category == MODE)
  {
    var after := SetConfigOption(r, configId, value, reply);
    if r.options.Some? {
      ApplyChangesOne(r.options.value, configId, value);
    }
    if after.options.Some? {
      FindByIdFinds(after.options.value, configId);
      if r.options.Some? && after.options != r.options {
        var k :| OnlyChanges(r.options.value, after.options.value, k, value) && r.options.value[k].id == configId;
        ChangedKeepsGood(r, after.options.value, k, configId, value);
      } else if r.options.None? {
        RepliedKeepsGood(r, after.options.value, configId, value);
      } else {
        UnchangedKeepsGood(r, configId, value, reply);
      }
    }
  }

  lemma ChangedKeepsGood(r: Record, options: seq<ConfigOption>, k: int, configId: string, value: string)
    requires Good(r) && r.options.Some? && OnlyChanges(r.options.value, options, k, value) &&
        r.options.value[k].id == configId
    requires value != "" || WellFormed(options)
    ensures WellFormed(options)
    ensures forall o :: o in options && o.id == configId ==> o == options[k]
    ensures r.modes.Some? ==> forall o :: o in options && o.category == MODE && o.id != configId ==>
        o.currentValue == Some(r.modes.value.currentModeId)
  {
    assert forall i :: 0 <= i < |options| && i != k ==>
        options[i] == r.options.value[i] && options[i] in r.options.value;
  }

  lemma RepliedKeepsGood(r: Record, options: seq<ConfigOption>, configId: string, value: string)
    requires Good(r) && r.options.None? && Echoes(r, configId, value, Some(options))
    ensures WellFormed(options)
  {
  }

  lemma UnchangedKeepsGood(r: Record, configId: string, value: string, reply: Option<seq<ConfigOption>>)
    requires Good(r) && r.options.Some? && Echoes(r, configId, value, reply)
    requires SetConfigOption(r, configId, value, reply).options == r.options
    ensures Good(SetConfigOption(r, configId, value, reply))
  {
    var options := r.options.value;
    FindByIdFinds(options, configId);
    ApplyChangesOne(options, configId, value);
  }

  // ------------------------------------------------------------------- histories

  datatype Action =
    | DoHydrate(info: seq<ConfigOption>)
    | DoSetMode(modeId: string)
    | DoSetConfigOption(configId: string, value: string, reply: Option<seq<ConfigOption>>)

  function Write(snapshot: Record, a: Action): Record {
    match a
    case DoHydrate(info) => Hydrate(snapshot, info)
    case DoSetMode(modeId) => SetMode(snapshot, modeId)
    case DoSetConfigOption(configId, value, reply) => SetConfigOption(snapshot, configId, value, reply)
  }

  ghost predicate Honest(snapshot: Record, a: Action) {
    match a
    case DoHydrate(info) => WellFormed(info)
    case DoSetMode(_) => true
    case DoSetConfigOption(configId, value, reply) => Echoes(snapshot, configId, value, reply)
  }

  /**
   * All versions a record ever had. Each version was written by one operation
   * from some earlier version, which need not have been the latest: reads and
   * writes of different operations may interleave.
   */
  ghost predicate History(versions: seq<Record>) {
    && versions != [] && Good(versions[0])
    && forall n :: 0 < n < |versions| ==> WrittenFromEarlier(versions, n)
  }

  ghost predicate WrittenFromEarlier(versions: seq<Record>, n: int)
    requires 0 < n < |versions|
  {
    exists k, a :: 0 <= k < n && Honest(versions[k], a) && versions[n] == Write(versions[k], a)
  }

  /** However the three operations interleave, the two views of the mode never disagree in the store. */
  lemma {:induction false} ViewsAlwaysAgree(versions: seq<Record>)
    requires History(versions)
    ensures forall n :: 0 <= n < |versions| ==> Good(versions[n]) && ViewsAgree(versions[n])
  {
    for n := 1 to |versions|
      invariant forall m :: 0 <= m < n ==> Good(versions[m])
    {
      assert WrittenFromEarlier(versions, n);
      var k, a :| 0 <= k < n && Honest(versions[k], a) && versions[n] == Write(versions[k], a);
      if a.DoHydrate? {
        HydrateKeepsAgreement(versions[k], a.info);
      } else if a.DoSetMode? {
        SetModeKeepsAgreement(versions[k], a.modeId);
      } else {
        SetConfigOptionKeepsAgreement(versions[k], a.configId, a.value, a.reply);
      }
    }
  }
}
