/** `GetModuleNameFromContent` of parser.go on text already split into lines:
    the module name is the trimmed rest of the first trimmed line that starts
    with "module ". */
module ModuleNames {
  import opened Results
  import opened Text
  import opened Model

  const ModuleKeyword: string := "module "

  /** Why no module name is returned. */
  datatype ModuleError =
    | ModuleNotFound
    | InvalidModuleName(reason: ValidationError)

  /** The trimmed line starts with "module ". */
  predicate IsModuleLine(line: string) {
    HasPrefix(TrimSpace(line), ModuleKeyword)
  }

  /** The trimmed text after the keyword on a module line. */
  function ModuleRemainder(line: string): string
    requires IsModuleLine(line)
  {
    TrimSpace(TrimSpace(line)[|ModuleKeyword|..])
  }

  /** The outcome of one module line: its name, or why the name is rejected. */
  function LineVerdict(line: string): Result<string, ModuleError>
    requires IsModuleLine(line)
  {
    match ValidateModuleName(ModuleRemainder(line))
    case Some(e) => Err(InvalidModuleName(e))
    case None => Ok(ModuleRemainder(line))
  }

  /** The index of the first module line, if any. */
  function FirstModuleLine(lines: seq<string>): Option<nat> {
    FirstWhere(lines, IsModuleLine)
  }

  /** Scans the lines in order and stops at the first module line: its name
      is returned when valid and its rejection otherwise, and no later line is
      looked at. Text with no module line, the empty text included, gives
      `ModuleNotFound`. */
  function GetModuleNameFromContent(lines: seq<string>): (r: Result<string, ModuleError>)
    ensures r == Err(ModuleNotFound) <==> FirstModuleLine(lines).None?
    ensures FirstModuleLine(lines).Some? ==> r == LineVerdict(lines[FirstModuleLine(lines).value])
    ensures r.Ok? ==> ModuleNameIsValid(r.value)
    decreases |lines|
  {
    if |lines| == 0 then Err(ModuleNotFound)
    else if IsModuleLine(lines[0]) then
      VerdictIsValid(lines[0]);
      LineVerdict(lines[0])
    else
      FirstModuleLineTail(lines);
      GetModuleNameFromContent(lines[1..])
  }

  lemma VerdictIsValid(line: string)
    requires IsModuleLine(line)
    ensures LineVerdict(line).Ok? ==> ModuleNameIsValid(LineVerdict(line).value)
  {
  }

  lemma FirstModuleLineTail(lines: seq<string>)
    requires |lines| > 0 && !IsModuleLine(lines[0])
    ensures FirstModuleLine(lines).None? <==> FirstModuleLine(lines[1..]).None?
    ensures FirstModuleLine(lines).Some? ==>
              FirstModuleLine(lines[1..]).Some? && FirstModuleLine(lines).value == FirstModuleLine(lines[1..]).value + 1
  {
  }

  /** Only the first module line matters: whatever follows it, even another
      module line, does not change the outcome. */
  lemma FirstModuleLineDecides(lines: seq<string>, i: nat, rest: seq<string>)
    requires i < |lines| && IsModuleLine(lines[i])
    requires forall j :: 0 <= j < i ==> !IsModuleLine(lines[j])
    ensures GetModuleNameFromContent(lines) == GetModuleNameFromContent(lines[..i + 1] + rest)
  {
    var other := lines[..i + 1] + rest;
    assert forall j :: 0 <= j <= i ==> other[j] == lines[j];
    FirstWhereIs(lines, IsModuleLine, i);
    FirstWhereIs(other, IsModuleLine, i);
  }

  /** The trimmed rest of a module line is never blank: trimming the line
      already removed any whitespace after a bare keyword, and such a line no
      longer starts with "module ". */
  lemma ModuleRemainderNotBlank(line: string)
    requires IsModuleLine(line)
    ensures HasVisibleChar(ModuleRemainder(line))
  {
    var t := TrimSpace(line);
    var k := |ModuleKeyword|;
    assert t[k - 1] == ' ';
    assert |t| > k;
    var rest := t[k..];
    assert rest[|rest| - 1] == t[|t| - 1];
    assert !AllSpace(rest);
    var name := ModuleRemainder(line);
    assert !IsSpace(name[0]);
  }

  /** Hence the only rejection the scan can give is a space inside the name:
      a module line's outcome is an error exactly when its name has one. */
  lemma ModuleLineVerdict(line: string)
    requires IsModuleLine(line)
    ensures LineVerdict(line).Err? <==> ' ' in ModuleRemainder(line)
    ensures LineVerdict(line).Err? ==> LineVerdict(line) == Err(InvalidModuleName(ModuleNameHasSpace))
    ensures LineVerdict(line).Ok? ==> LineVerdict(line).value == ModuleRemainder(line)
  {
    var name := ModuleRemainder(line);
    ModuleRemainderNotBlank(line);
    var v :| 0 <= v < |name| && !IsSpace(name[v]);
    assert !AllSpace(name);
    var e := ValidateModuleName(name);
    assert e.None? || e == Some(ModuleNameHasSpace);
  }
}
