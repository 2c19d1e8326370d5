/**
 * The pure part of `warn` in warn/warn.py: the category default and check,
 * the module names of the call site and of the emitter (with their fallbacks
 * when a frame is missing), and the file name of the call site.  The stack
 * walk itself is not modelled: the frames it finds are inputs.
 */
module Entry {
  import opened Wrappers
  import opened Rules
  import opened Dispatch

  /** The string-valued entries of a module's globals that `warn` reads (`__name__`, `__file__`). */
  type Globals = map<string, string>

  /** A stack frame found by the stack walk: its globals and its current line. */
  datatype Frame = Frame(globals: Globals, lineno: int)

  /** A Warning instance fixes the category; otherwise the argument, defaulting to UserWarning, must be a Warning class. */
  function ResolveCategory(h: Host, message: Message, category: Option<Obj>): (r: Result<Cat>) {
    var arg := if message.Instance? then Some(Class(message.cls)) else category;
    var obj := if arg.None? then Class(UserWarning) else arg.value;
    if obj.Class? && h.isSub(obj.cls, Warning) then Ok(obj.cls)
    else Err(TypeError("category must be a Warning subclass"))
  }

  /** `globals['__name__']`, or `"<string>"` when it is missing. */
  function NameOf(g: Globals): (r: string) {
    if "__name__" in g then g["__name__"] else "<string>"
  }

  /**
   * The file name of the call site: `__file__` with a final `.pyc` cut to
   * `.py`; when it is missing or empty, `sys.argv[0]` for `__main__` (or
   * `"__main__"` when there is no `sys.argv`), and finally the module name.
   * `argv` is `None` when `sys.argv` does not exist.
   */
  function CallSiteFilename(g: Globals, moduleName: string, argv: Option<seq<string>>): (r: Result<string>)
  {
    var file := if "__file__" in g then g["__file__"] else "";
    if file != "" then
      Ok(if EndsWithCI(file, ".pyc") then file[..|file| - 1] else file)
    else
      var fromArgv: Result<string> :=
        if moduleName == "__main__" then
          match argv
          case None => Ok("__main__")
          case Some(a) => if |a| == 0 then Err(IndexError) else Ok(a[0])
        else
          Ok("");
      match fromArgv
      case Err(e) => Err(e)
      case Ok(f) => Ok(if f == "" then moduleName else f)
  }

  /** The globals of the call site: the frame's, or `sys.__dict__` when the stack is too shallow. */
  function SiteGlobals(site: Option<Frame>, sysGlobals: Globals): (r: Globals) {
    if site.Some? then site.value.globals else sysGlobals
  }

  /**
   * Everything `warn` computes before calling `warn_explicit`.  `site` and
   * `emitter` are what the stack walk found at `stacklevel` and
   * `emitstacklevel` (`None` when it raised ValueError).
   */
  function PrepareCall(h: Host, message: Message, category: Option<Obj>, site: Option<Frame>,
                       emitter: Option<Globals>, sysGlobals: Globals, argv: Option<seq<string>>)
    : (r: Result<Call>)
  {
    match ResolveCategory(h, message, category)
    case Err(e) => Err(e)
    case Ok(cat) =>
      var g := SiteGlobals(site, sysGlobals);
      var lineno := if site.Some? then site.value.lineno else 1;
      var emodule := NameOf(if emitter.Some? then emitter.value else sysGlobals);
      var moduleName := NameOf(g);
      match CallSiteFilename(g, moduleName, argv)
      case Err(e) => Err(e)
      case Ok(filename) => Ok(Call(message, cat, filename, lineno, Some(moduleName), Some(emodule)))
  }

  /**
   * The category is always a Warning subclass: a Warning instance imposes
   * its class, a missing category becomes UserWarning, and anything else
   * that is not a Warning class is a TypeError.
   */
  lemma CategoryResolution(h: Host, message: Message, category: Option<Obj>)
    ensures ResolveCategory(h, message, category).Ok? ==> h.isSub(ResolveCategory(h, message, category).value, Warning)
    ensures message.Instance? ==>
      (ResolveCategory(h, message, category).Ok? <==> h.isSub(message.cls, Warning)) &&
      (ResolveCategory(h, message, category).Ok? ==> ResolveCategory(h, message, category).value == message.cls)
    ensures message.Text? && category.None? && h.Valid() ==> ResolveCategory(h, message, category) == Ok(UserWarning)
    ensures message.Text? && category == Some(NotAClass) ==> ResolveCategory(h, message, category).Err?
    ensures forall k :: message.Text? && category == Some(Class(k)) ==>
      (ResolveCategory(h, message, category) == Ok(k) <==> h.isSub(k, Warning))
  {
  }

  /**
   * The file name rules: `.pyc` becomes `.py`, other names are kept; with
   * no `__file__`, a `__main__` module takes `sys.argv[0]` (an empty argv
   * raises IndexError) and any other module its own name.
   */
  lemma FilenameRules(g: Globals, moduleName: string, argv: Option<seq<string>>)
    ensures var file := if "__file__" in g then g["__file__"] else "";
      var r := CallSiteFilename(g, moduleName, argv);
      (file != "" && EndsWithCI(file, ".pyc") ==>
         r == Ok(file[..|file| - 1]) && EndsWithCI(r.value, ".py")) &&
      (file != "" && !EndsWithCI(file, ".pyc") ==> r == Ok(file)) &&
      (file == "" && moduleName != "__main__" ==> r == Ok(moduleName)) &&
      (file == "" && moduleName == "__main__" ==>
         (argv.None? ==> r == Ok("__main__")) &&
         (argv == Some([]) ==> r == Err(IndexError)) &&
         (argv.Some? && |argv.value| > 0 ==>
            r == Ok(if argv.value[0] == "" then moduleName else argv.value[0])))
    ensures CallSiteFilename(g, moduleName, argv) == Ok("") ==> moduleName == ""
  {
    var file := if "__file__" in g then g["__file__"] else "";
    if file != "" && EndsWithCI(file, ".pyc") {
      var n := |file|;
      var r := file[..n - 1];
      assert Lower(file[n - 4..]) == ".pyc";
      assert Lower(r[|r| - 3..]) == ".py" by {
        forall i | 0 <= i < 3
          ensures Lower(r[|r| - 3..])[i] == ".py"[i]
        {
          assert Lower(file[n - 4..])[i] == ".pyc"[i];
        }
      }
    }
  }

  /**
   * What `warn` hands to `warn_explicit`: the module and emitter names from
   * the frames (or from `sys` when a frame is missing), line 1 when the call
   * site is missing, a checked category; it fails only on the category or
   * on an empty argv.
   */
  lemma PrepareCallMeaning(h: Host, message: Message, category: Option<Obj>, site: Option<Frame>,
                           emitter: Option<Globals>, sysGlobals: Globals, argv: Option<seq<string>>)
    ensures var r := PrepareCall(h, message, category, site, emitter, sysGlobals, argv);
      var g := SiteGlobals(site, sysGlobals);
      (r.Ok? ==>
        r.value.message == message &&
        Ok(r.value.category) == ResolveCategory(h, message, category) &&
        h.isSub(r.value.category, Warning) &&
        r.value.moduleName == Some(NameOf(g)) &&
        r.value.emitModule == Some(NameOf(if emitter.Some? then emitter.value else sysGlobals)) &&
        r.value.lineno == (if site.Some? then site.value.lineno else 1) &&
        Ok(r.value.filename) == CallSiteFilename(g, NameOf(g), argv)) &&
      (r.Err? <==> ResolveCategory(h, message, category).Err? || CallSiteFilename(g, NameOf(g), argv) == Err(IndexError))
  {
    CategoryResolution(h, message, category);
  }

  /**
   * Through `warn`, the emitter module is always known, so no filter test
   * raises: matching a six-field rule never meets a missing emitter.
   */
  lemma PreparedCallsTestCleanly(h: Host, message: Message, category: Option<Obj>, site: Option<Frame>,
                                 emitter: Option<Globals>, sysGlobals: Globals, argv: Option<seq<string>>, f: Filter)
    requires PrepareCall(h, message, category, site, emitter, sysGlobals, argv).Ok?
    ensures Test(h, f, EventOf(PrepareCall(h, message, category, site, emitter, sysGlobals, argv).value)).Ok?
  {
  }
}
