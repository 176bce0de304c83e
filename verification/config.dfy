/** The run configuration (AnalysisConfig in config.py) and how it is
    derived from parsed command-line options. */
module Config {
  import opened Values

  datatype AnalysisConfig = AnalysisConfig(
    filePath: string,
    folderPath: Option<string>,
    saveDir: string,
    customOutput: Option<string>,
    quietMode: bool,
    typingEnabled: bool,
    saveEnabled: bool,
    showBanner: bool)

  const DefaultSaveDir := "./save"

  /** An attribute of the parsed options that may be missing altogether
      (hasattr fails) or present with a value, possibly None. */
  datatype Attr = Missing | Present(value: Option<string>)

  /** The parsed options. `input` is always defined by the parser; folder
      and output are looked up with hasattr. */
  datatype Namespace = Namespace(
    input: Option<string>,
    folder: Attr,
    output: Attr,
    quiet: bool,
    noTyping: bool,
    noSave: bool,
    noBanner: bool)

  /** `args.x if hasattr(args, 'x') and args.x else None`: a truthy string or None. */
  function OptionalText(a: Attr): (r: Option<string>)
    ensures r.Some? <==> a.Present? && a.value.Some? && a.value.value != []
    ensures r.Some? ==> r == a.value
  {
    if a.Present? && a.value.Some? && a.value.value != [] then a.value else None
  }

  /** from_args */
  function FromArgs(args: Namespace): (c: AnalysisConfig)
    ensures c.typingEnabled <==> !args.noTyping && !args.quiet
    ensures c.showBanner <==> !args.noBanner && !args.quiet
    ensures c.saveEnabled <==> !args.noSave
    ensures c.quietMode == args.quiet
    ensures c.saveDir == DefaultSaveDir
    ensures args.input.None? || args.input.value == [] ==> c.filePath == []
    ensures args.input.Some? ==> c.filePath == args.input.value
    ensures c.folderPath == OptionalText(args.folder)
    ensures c.customOutput == OptionalText(args.output)
  {
    AnalysisConfig(
      filePath := if args.input.Some? && args.input.value != [] then args.input.value else "",
      folderPath := OptionalText(args.folder),
      saveDir := DefaultSaveDir,
      customOutput := OptionalText(args.output),
      quietMode := args.quiet,
      typingEnabled := !args.noTyping && !args.quiet,
      saveEnabled := !args.noSave,
      showBanner := !args.noBanner && !args.quiet)
  }

  /** Quiet mode silences typing and the banner whatever the other flags
      say, and leaves saving alone. */
  lemma QuietSilences(args: Namespace)
    requires args.quiet
    ensures !FromArgs(args).typingEnabled && !FromArgs(args).showBanner
    ensures FromArgs(args).saveEnabled == FromArgs(args.(quiet := false)).saveEnabled
  {
  }

  /** interactive */
  function Interactive(filePath: string): (c: AnalysisConfig)
    ensures c.filePath == filePath
    ensures c.folderPath == None && c.customOutput == None
    ensures c.saveDir == DefaultSaveDir
    ensures !c.quietMode && c.typingEnabled && c.saveEnabled && c.showBanner
  {
    AnalysisConfig(filePath, None, DefaultSaveDir, None, false, true, true, true)
  }

  /** The interactive configuration is the one the options parser yields
      for that file and no flag. */
  lemma InteractiveIsDefaultArgs(filePath: string)
    ensures Interactive(filePath) == FromArgs(Namespace(Some(filePath), Missing, Missing, false, false, false, false))
  {
  }
}
