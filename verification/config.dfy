/**
 * The daemon's configuration record, the static `Directives` and
 * `facilitynames` tables, `get_dir_index`, and the five setters the
 * configuration loader dispatches to.
 *
 * Each setter is a pure function from the old record and the option to the
 * new record and the setter's C return value.
 */
module Config {
  import opened Wrappers
  import opened CStrings

  /** Size of every line buffer and every string field of the record. */
  const MaxLine: nat := 128

  /** Facility codes as `<syslog.h>` defines them (facility number times 8). */
  const LogSyslog: int := 5 * 8
  const LogLocal0: int := 16 * 8
  const LogLocal1: int := 17 * 8
  const LogLocal2: int := 18 * 8
  const LogLocal3: int := 19 * 8
  const LogLocal4: int := 20 * 8
  const LogLocal5: int := 21 * 8
  const LogLocal6: int := 22 * 8
  const LogLocal7: int := 23 * 8

  /** The process-wide configuration record. */
  datatype Config = Config(
    debugFile: CString,
    logFile: CString,
    entity: CString,
    logFacility: int,
    useApphbd: bool)

  /** The record's value before any directive has been read. */
  const Initial: Config :=
    Config("/var/log/ha-debug", "/var/log/ha-log", "heartbeat", LogLocal7, false)

  /** One row of the facility-name table. */
  datatype SyslogCode = SyslogCode(name: CString, value: int)

  /** The facility-name table, without its NULL sentinel row. */
  const FacilityNames: seq<SyslogCode> := [
    SyslogCode("syslog", LogSyslog),
    SyslogCode("local0", LogLocal0),
    SyslogCode("local1", LogLocal1),
    SyslogCode("local2", LogLocal2),
    SyslogCode("local3", LogLocal3),
    SyslogCode("local4", LogLocal4),
    SyslogCode("local5", LogLocal5),
    SyslogCode("local6", LogLocal6),
    SyslogCode("local7", LogLocal7)
  ]

  /** The name column of the facility table. */
  function FacilityNameColumn(): (names: seq<string>)
    ensures |names| == |FacilityNames|
    ensures forall i :: 0 <= i < |names| ==> names[i] == FacilityNames[i].name
  {
    seq(|FacilityNames|, i requires 0 <= i < |FacilityNames| => FacilityNames[i].name)
  }

  /** The setter a directive dispatches to (the C table holds function
      pointers). */
  datatype Setter = DebugfileSetter | LogfileSetter | FacilitySetter | EntitySetter | UseApphbdSetter

  datatype Directive = Directive(name: CString, setter: Setter)

  /** The directive table, in source order. */
  const Directives: seq<Directive> := [
    Directive("debugfile", DebugfileSetter),
    Directive("logfile", LogfileSetter),
    Directive("logfacility", FacilitySetter),
    Directive("entity", EntitySetter),
    Directive("useapphbd", UseApphbdSetter)
  ]

  /** The name column of the directive table. */
  function DirectiveNameColumn(): (names: seq<string>)
    ensures |names| == |Directives|
    ensures forall i :: 0 <= i < |names| ==> names[i] == Directives[i].name
  {
    seq(|Directives|, i requires 0 <= i < |Directives| => Directives[i].name)
  }

  /** Every directive name is non-empty and starts with one of four letters. */
  lemma DirectiveInitials()
    ensures forall j :: 0 <= j < |Directives| ==>
              |Directives[j].name| > 0 && Directives[j].name[0] in "delu"
  {
  }

  /** `get_dir_index`: the position of the table entry whose name equals
      `directive` exactly, or -1 when there is none. */
  function GetDirIndex(directive: string): (r: int)
    ensures -1 <= r < |Directives|
    ensures r == -1 <==> forall j :: 0 <= j < |Directives| ==> Directives[j].name != directive
    ensures r >= 0 ==> Directives[r].name == directive
    ensures r >= 0 ==> forall j :: 0 <= j < |Directives| && j != r ==> Directives[j].name != directive
  {
    var names := DirectiveNameColumn();
    var r := IndexOf(names, directive);
    assert r >= 0 ==> names[r] == directive;
    assert forall j :: 0 <= j < |Directives| ==> names[j] in names;
    r
  }

  /** Directive names are matched case-sensitively: the upper-case spelling
      of a known directive is not a directive. */
  lemma DirectiveMatchIsCaseSensitive()
    ensures GetDirIndex("useapphbd") == 4
    ensures GetDirIndex("UseApphbd") == -1
    ensures GetDirIndex("logfile ") == -1
  {
    assert Directives[4].name == "useapphbd";
    assert "UseApphbd"[0] != Directives[4].name[0];
    assert |"logfile "| != |Directives[1].name|;
  }

  /** The result of one setter call: the new record and the C return value. */
  datatype SetResult = SetResult(config: Config, ok: bool)

  /** `strncpy(field, option, MAXLINE)`: the option itself whenever it fits the
      field's buffer; a longer option keeps only its first `MaxLine`
      characters. */
  function StrNCopy(option: CString): (r: CString)
    ensures |option| < MaxLine ==> r == option
    ensures |r| <= MaxLine && r == option[..|r|]
  {
    if |option| < MaxLine then option else option[..MaxLine]
  }

  /** `set_debugfile`: NULL clears the field and fails; any other option,
      even the empty one, is copied into the debug-file field alone. */
  function SetDebugFile(cfg: Config, option: Option<CString>): (r: SetResult)
    ensures r.ok <==> option.Some?
    ensures r.config.logFile == cfg.logFile && r.config.entity == cfg.entity
    ensures r.config.logFacility == cfg.logFacility && r.config.useApphbd == cfg.useApphbd
    ensures option.None? ==> r.config.debugFile == ""
    ensures option.Some? && |option.value| < MaxLine ==> r.config.debugFile == option.value
  {
    match option
    case None => SetResult(cfg.(debugFile := ""), false)
    case Some(o) => SetResult(cfg.(debugFile := StrNCopy(o)), true)
  }

  /** `set_logfile`: as `set_debugfile`, on the log-file field. */
  function SetLogFile(cfg: Config, option: Option<CString>): (r: SetResult)
    ensures r.ok <==> option.Some?
    ensures r.config.debugFile == cfg.debugFile && r.config.entity == cfg.entity
    ensures r.config.logFacility == cfg.logFacility && r.config.useApphbd == cfg.useApphbd
    ensures option.None? ==> r.config.logFile == ""
    ensures option.Some? && |option.value| < MaxLine ==> r.config.logFile == option.value
  {
    match option
    case None => SetResult(cfg.(logFile := ""), false)
    case Some(o) => SetResult(cfg.(logFile := StrNCopy(o)), true)
  }

  /** `set_entity`: as `set_debugfile`, on the entity field. */
  function SetEntity(cfg: Config, option: Option<CString>): (r: SetResult)
    ensures r.ok <==> option.Some?
    ensures r.config.debugFile == cfg.debugFile && r.config.logFile == cfg.logFile
    ensures r.config.logFacility == cfg.logFacility && r.config.useApphbd == cfg.useApphbd
    ensures option.None? ==> r.config.entity == ""
    ensures option.Some? && |option.value| < MaxLine ==> r.config.entity == option.value
  {
    match option
    case None => SetResult(cfg.(entity := ""), false)
    case Some(o) => SetResult(cfg.(entity := StrNCopy(o)), true)
  }

  /** `set_facility`: a name from the facility table sets the numeric code
      listed beside it and succeeds; any other name fails and leaves the
      record as it was. */
  function SetFacilityName(cfg: Config, value: CString): (r: SetResult)
    ensures r.ok <==> exists i :: 0 <= i < |FacilityNames| && FacilityNames[i].name == value
    ensures r.ok ==> exists i :: 0 <= i < |FacilityNames| && FacilityNames[i].name == value
                                 && r.config == cfg.(logFacility := FacilityNames[i].value)
    ensures !r.ok ==> r.config == cfg
  {
    var names := FacilityNameColumn();
    var i := IndexOf(names, value);
    if i == -1 then
      assert forall j :: 0 <= j < |FacilityNames| ==> names[j] in names;
      SetResult(cfg, false)
    else
      SetResult(cfg.(logFacility := FacilityNames[i].value), true)
  }

  /** `set_useapphbd`: exactly "yes" or "no" set the flag and succeed; NULL
      and every other option fail and leave the record as it was. */
  function SetUseApphbdFlag(cfg: Config, option: Option<CString>): (r: SetResult)
    ensures r.ok <==> option == Some("yes") || option == Some("no")
    ensures r.ok ==> r.config == cfg.(useApphbd := option == Some("yes"))
    ensures !r.ok ==> r.config == cfg
  {
    match option
    case None => SetResult(cfg, false)
    case Some(o) =>
      if o == "yes" then SetResult(cfg.(useApphbd := true), true)
      else if o == "no" then SetResult(cfg.(useApphbd := false), true)
      else SetResult(cfg, false)
  }

  /** Calls a setter through the table's function pointer. */
  function Apply(setter: Setter, cfg: Config, option: Option<CString>): (r: SetResult)
    ensures forall s :: s != setter ==> Field(r.config, s) == Field(cfg, s)
  {
    match setter
    case DebugfileSetter => SetDebugFile(cfg, option)
    case LogfileSetter => SetLogFile(cfg, option)
    case FacilitySetter =>
      // `set_facility` passes the pointer straight to strcmp; the loader never
      // passes NULL, and the model reads a NULL facility as the empty name
      SetFacilityName(cfg, option.GetOr(""))
    case EntitySetter => SetEntity(cfg, option)
    case UseApphbdSetter => SetUseApphbdFlag(cfg, option)
  }

  /** The value of the one field a setter writes, as a tagged union so that
      all five fields can be talked about at once. */
  datatype FieldValue = Text(s: CString) | Code(n: int) | Flag(b: bool)

  /** The field of `cfg` that `setter` writes. */
  function Field(cfg: Config, setter: Setter): FieldValue {
    match setter
    case DebugfileSetter => Text(cfg.debugFile)
    case LogfileSetter => Text(cfg.logFile)
    case FacilitySetter => Code(cfg.logFacility)
    case EntitySetter => Text(cfg.entity)
    case UseApphbdSetter => Flag(cfg.useApphbd)
  }

  /** Whether `setter` accepts the non-NULL `option`, stated from the tables
      and the literals alone, independently of the setters' code. */
  predicate Accepts(setter: Setter, option: CString) {
    match setter
    case FacilitySetter => exists i :: 0 <= i < |FacilityNames| && FacilityNames[i].name == option
    case UseApphbdSetter => option == "yes" || option == "no"
    case _ => true
  }

  /** The facility code listed beside `name` in the table. */
  function FacilityCode(name: CString): (code: int)
    requires exists i :: 0 <= i < |FacilityNames| && FacilityNames[i].name == name
    ensures exists i :: 0 <= i < |FacilityNames| && FacilityNames[i].name == name
                        && FacilityNames[i].value == code
  {
    var i :| 0 <= i < |FacilityNames| && FacilityNames[i].name == name;
    FacilityNames[i].value
  }

  /** The value a successful call of `setter` with `option` stores. */
  function Value(setter: Setter, option: CString): FieldValue
    requires Accepts(setter, option)
  {
    match setter
    case FacilitySetter => Code(FacilityCode(option))
    case UseApphbdSetter => Flag(option == "yes")
    case _ => Text(StrNCopy(option))
  }

  /** Facility names are distinct, so a name determines its code. */
  lemma FacilityNamesDistinct()
    ensures forall i, j :: 0 <= i < j < |FacilityNames| ==> FacilityNames[i].name != FacilityNames[j].name
  {
    forall i, j | 0 <= i < j < |FacilityNames|
      ensures FacilityNames[i].name != FacilityNames[j].name
    {
      assert FacilityNames[i].name[|FacilityNames[i].name| - 1] != FacilityNames[j].name[|FacilityNames[j].name| - 1];
    }
  }

  /** A setter called with a non-NULL option, as the loader calls it: it
      succeeds exactly when the option is acceptable; on success its own
      field holds the option's value, on failure the record is unchanged, and
      in either case no other field moves. */
  lemma ApplyContract(setter: Setter, cfg: Config, option: CString)
    ensures Apply(setter, cfg, Some(option)).ok <==> Accepts(setter, option)
    ensures Accepts(setter, option) ==> Field(Apply(setter, cfg, Some(option)).config, setter) == Value(setter, option)
    ensures !Accepts(setter, option) ==> Apply(setter, cfg, Some(option)).config == cfg
    ensures forall other :: other != setter ==>
              Field(Apply(setter, cfg, Some(option)).config, other) == Field(cfg, other)
  {
    if setter == FacilitySetter && Accepts(setter, option) {
      FacilityNamesDistinct();
    }
  }

  /** The five fields determine the record. */
  lemma FieldsDetermineConfig(a: Config, b: Config)
    requires forall s :: Field(a, s) == Field(b, s)
    ensures a == b
  {
    assert Field(a, DebugfileSetter) == Field(b, DebugfileSetter);
    assert Field(a, LogfileSetter) == Field(b, LogfileSetter);
    assert Field(a, FacilitySetter) == Field(b, FacilitySetter);
    assert Field(a, EntitySetter) == Field(b, EntitySetter);
    assert Field(a, UseApphbdSetter) == Field(b, UseApphbdSetter);
  }
}
