/** File format detection: a content sniffer that tries JSON, then Jsonnet,
    then a script shebang. The JSON test (a JSON parser) and the Jsonnet test
    (an external formatter run as a child process) are parameters, so every
    property holds whatever they answer. */
module FileFormatDetection {

  datatype FileFormat = Json | Jsonnet | Script | Unknown

  /** `is_script`: the content starts with the shebang "#!". */
  predicate IsScript(content: string) {
    "#!" <= content
  }

  /** `FileFormat::from_string`: the first test that succeeds decides. */
  function FromString(content: string, isJson: string -> bool, isJsonnet: string -> bool): (f: FileFormat)
    ensures f == Json <==> isJson(content)
    ensures f == Jsonnet <==> !isJson(content) && isJsonnet(content)
    ensures f == Script <==> !isJson(content) && !isJsonnet(content) && IsScript(content)
    ensures f == Unknown <==> !isJson(content) && !isJsonnet(content) && !IsScript(content)
  {
    if isJson(content) then Json
    else if isJsonnet(content) then Jsonnet
    else if IsScript(content) then Script
    else Unknown
  }

  /** The shebang test looks at the first two characters and nothing else. */
  lemma IsScriptSpec(content: string)
    ensures IsScript(content) <==> |content| >= 2 && content[0] == '#' && content[1] == '!'
  {
    if |content| >= 2 && content[0] == '#' && content[1] == '!' {
      assert content[..2] == "#!";
    }
  }

  /** Whatever follows a shebang, the content is a script unless one of the
      two parsers accepts it. */
  lemma ShebangIsScript(rest: string, isJson: string -> bool, isJsonnet: string -> bool)
    requires !isJson("#!" + rest) && !isJsonnet("#!" + rest)
    ensures FromString("#!" + rest, isJson, isJsonnet) == Script
  {
  }
}
