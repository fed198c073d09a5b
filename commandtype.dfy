// The CommandType enum and its generated string codec
// (pkg/backy/commandtype_enumer.go).
module CommandTypes {
  import opened Wrappers
  import Strs

  /** Go's `type CommandType int`. */
  type CommandType = int

  const DefaultCT: CommandType := 0
  const ScriptCT: CommandType := 1
  const ScriptFileCT: CommandType := 2
  const RemoteScriptCT: CommandType := 3
  const PackageCT: CommandType := 4
  const UserCT: CommandType := 5

  /**
   * All names, back to back ("scriptscriptFileremoteScriptpackageuser"), and the
   * lower-case copy of the table; written as the concatenation of the names.
   */
  const NameTable: string := "script" + "scriptFile" + "remoteScript" + "package" + "user"
  const LowerNameTable: string := "script" + "scriptfile" + "remotescript" + "package" + "user"
  /** Where each name starts and ends in the tables. */
  const NameIndex: seq<nat> := [0, 0, 6, 16, 28, 35, 39]

  const Values: seq<CommandType> := [DefaultCT, ScriptCT, ScriptFileCT, RemoteScriptCT, PackageCT, UserCT]

  function NameAt(i: nat): string
    requires i < 6
  {
    NameTable[NameIndex[i]..NameIndex[i + 1]]
  }

  function LowerNameAt(i: nat): string
    requires i < 6
  {
    LowerNameTable[NameIndex[i]..NameIndex[i + 1]]
  }

  lemma Tables()
    ensures NameAt(0) == "" && NameAt(1) == "script" && NameAt(2) == "scriptFile"
    ensures NameAt(3) == "remoteScript" && NameAt(4) == "package" && NameAt(5) == "user"
    ensures LowerNameAt(0) == "" && LowerNameAt(1) == "script" && LowerNameAt(2) == "scriptfile"
    ensures LowerNameAt(3) == "remotescript" && LowerNameAt(4) == "package" && LowerNameAt(5) == "user"
  {
    NameSlices();
    LowerSlices();
  }

  lemma NameSlices()
    ensures NameTable[0..0] == "" && NameTable[0..6] == "script" && NameTable[6..16] == "scriptFile"
    ensures NameTable[16..28] == "remoteScript" && NameTable[28..35] == "package" && NameTable[35..39] == "user"
  {
    TableSlices(NameTable, "scriptFile", "remoteScript");
  }

  lemma LowerSlices()
    ensures LowerNameTable[0..0] == "" && LowerNameTable[0..6] == "script" && LowerNameTable[6..16] == "scriptfile"
    ensures LowerNameTable[16..28] == "remotescript" && LowerNameTable[28..35] == "package" && LowerNameTable[35..39] == "user"
  {
    TableSlices(LowerNameTable, "scriptfile", "remotescript");
  }

  lemma TableSlices(t: string, b: string, c: string)
    requires |b| == 10 && |c| == 12 && t == "script" + b + c + "package" + "user"
    ensures t[0..0] == "" && t[0..6] == "script" && t[6..16] == b && t[16..28] == c
    ensures t[28..35] == "package" && t[35..39] == "user"
  {
    var ab := "script" + b;
    var abc := ab + c;
    var abcd := abc + "package";
    assert t == abcd + "user";
    assert t[..35] == abcd;
    assert abcd[..28] == abc;
    assert abc[..16] == ab;
  }

  /** CommandType.String */
  function String(i: CommandType): (r: string)
    ensures i == DefaultCT ==> r == ""
    ensures i == ScriptCT ==> r == "script"
    ensures i == ScriptFileCT ==> r == "scriptFile"
    ensures i == RemoteScriptCT ==> r == "remoteScript"
    ensures i == PackageCT ==> r == "package"
    ensures i == UserCT ==> r == "user"
    ensures (i < 0 || i > 5) ==> r == "CommandType(" + Strs.IntToString(i) + ")"
  {
    if i < 0 || i >= |NameIndex| - 1 then "CommandType(" + Strs.IntToString(i) + ")"
    else Tables(); NameAt(i)
  }

  /** The generated name-to-value map: each name and its lower-case form. */
  function NameToValue(): (m: map<string, CommandType>)
  {
    map[NameTable[0..0] := DefaultCT, LowerNameTable[0..0] := DefaultCT,
        NameTable[0..6] := ScriptCT, LowerNameTable[0..6] := ScriptCT,
        NameTable[6..16] := ScriptFileCT, LowerNameTable[6..16] := ScriptFileCT,
        NameTable[16..28] := RemoteScriptCT, LowerNameTable[16..28] := RemoteScriptCT,
        NameTable[28..35] := PackageCT, LowerNameTable[28..35] := PackageCT,
        NameTable[35..39] := UserCT, LowerNameTable[35..39] := UserCT]
  }

  lemma NameToValueKeys()
    ensures NameToValue().Keys == {"", "script", "scriptFile", "scriptfile", "remoteScript",
                                   "remotescript", "package", "user"}
    ensures NameToValue() == map["" := 0, "script" := 1, "scriptFile" := 2, "scriptfile" := 2,
                                 "remoteScript" := 3, "remotescript" := 3, "package" := 4, "user" := 5]
  {
    Tables();
  }

  /**
   * CommandTypeString: the exact name first, then the lower-cased string;
   * an unknown string gives 0 with an error.
   */
  function CommandTypeString(s: string): (r: (CommandType, Option<string>))
    ensures r.1.None? <==> s in NameToValue() || Strs.ToLower(s) in NameToValue()
    ensures r.1.None? ==> IsACommandType(r.0)
    ensures r.1.Some? ==> r.0 == 0 && r.1.value == s + " does not belong to CommandType values"
  {
    NameToValueKeys();
    var m := NameToValue();
    if s in m then (m[s], None)
    else if Strs.ToLower(s) in m then (m[Strs.ToLower(s)], None)
    else (0, Some(s + " does not belong to CommandType values"))
  }

  /** IsACommandType: a search of the value list. */
  function IsACommandType(i: CommandType): (b: bool)
    ensures b <==> 0 <= i <= 5
  {
    i in Values
  }

  /** CommandTypeStrings: a copy of the name list in enum order. */
  function CommandTypeStrings(): (r: seq<string>)
    ensures r == ["", "script", "scriptFile", "remoteScript", "package", "user"]
    ensures forall i :: 0 <= i < |r| ==> r[i] == String(Values[i])
  {
    Tables();
    seq(6, i requires 0 <= i < 6 => NameAt(i))
  }

  /** MarshalText */
  function MarshalText(i: CommandType): (text: string)
    ensures IsACommandType(i) ==> text in NameToValue() && NameToValue()[text] == i
    ensures !IsACommandType(i) ==> text == "CommandType(" + Strs.IntToString(i) + ")"
  {
    NameToValueKeys();
    String(i)
  }

  /** UnmarshalText: the receiver takes the decoded value, 0 on error. */
  function UnmarshalText(text: string): (r: (CommandType, Option<string>))
    ensures r.1.None? ==> IsACommandType(r.0)
    ensures r.1.Some? ==> r.0 == 0
    ensures text in NameToValue() ==> r == (NameToValue()[text], None)
  {
    CommandTypeString(text)
  }

  lemma StringRoundTrip(i: CommandType)
    requires IsACommandType(i)
    ensures CommandTypeString(String(i)) == (i, None)
  {
    NameToValueKeys();
  }

  lemma TextRoundTrip(i: CommandType)
    requires 0 <= i <= 5
    ensures UnmarshalText(MarshalText(i)) == (i, None)
  {
    StringRoundTrip(i);
  }

  /** A string whose lower-case form is a lower-case name decodes to that value. */
  lemma CaseInsensitive(s: string, i: nat)
    requires i < 6 && Strs.ToLower(s) == LowerNameAt(i)
    ensures CommandTypeString(s) == (i, None)
  {
    NameToValueKeys();
    Tables();
    if s in NameToValue() {
      assert Strs.ToLower(s) == s || s == "scriptFile" || s == "remoteScript";
    }
  }

  lemma UpperCaseExample()
    ensures CommandTypeString("SCRIPTFILE") == (ScriptFileCT, None)
  {
    assert Strs.ToLower("SCRIPTFILE") == "scriptfile";
    Tables();
    CaseInsensitive("SCRIPTFILE", 2);
  }

  /** A string that is no name in either case gives value 0 and an error. */
  lemma UnknownName(s: string)
    requires forall i :: 0 <= i < 6 ==> Strs.ToLower(s) != LowerNameAt(i) && s != NameAt(i)
    ensures CommandTypeString(s).0 == 0 && CommandTypeString(s).1.Some?
  {
    NameToValueKeys();
    Tables();
  }
}
