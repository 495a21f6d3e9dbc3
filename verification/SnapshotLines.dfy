/** One line of an accessibility snapshot, and the rules that decide whether it is kept
    (refs/generator.py, refs/resolver.py). A line is taken after the generator's regular
    expressions have split it. */
module SnapshotLines {
  import opened Options

  /** `text` of an unmatched line is the line without its leading white space. For a matched line
      `textContent`, `playwrightRef` and `tail` are what the suffix expressions extract: the inline text, the
      browser's own ref and the cleaned suffix as it is appended to the output. */
  datatype Line =
    | Blank
    | Unmatched(indent: nat, text: string)
    | Matched(indent: nat, role: string, name: Option<string>, suffix: string,
              textContent: Option<string>, playwrightRef: Option<string>, tail: string)

  /** The role tables of the generator and the resolver. */
  datatype Roles = Roles(interactive: set<string>, alwaysRef: set<string>, content: set<string>,
                         landmark: set<string>, semantic: set<string>, structural: set<string>,
                         noise: set<string>, textLeaf: set<string>)

  const BROWSER_CLI_ROLES := Roles(
    {"application", "alertdialog", "button", "checkbox", "combobox", "dialog", "grid", "gridcell", "link", "listbox",
     "menu", "menubar", "menuitem", "menuitemcheckbox", "menuitemradio", "option", "progressbar", "radio",
     "radiogroup", "scrollbar", "search", "searchbox", "slider", "spinbutton", "switch", "tab", "tablist",
     "tabpanel", "textbox", "tree", "treegrid", "treeitem"},
    {"cell", "columnheader", "gridcell", "listitem", "option", "row", "rowheader"},
    {"article", "cell", "columnheader", "heading", "main", "navigation", "region", "rowheader"},
    {"banner", "contentinfo", "complementary", "form", "main", "navigation", "region", "search"},
    {"alert", "blockquote", "caption", "code", "definition", "document", "emphasis", "feed", "figure", "img",
     "insertion", "log", "marquee", "math", "meter", "note", "paragraph", "status", "strong", "subscript",
     "superscript", "term", "text", "time", "timer", "tooltip"},
    {"directory", "list", "row", "rowgroup", "table", "toolbar"},
    {"generic", "group", "none", "presentation"},
    {"text"})

  /** A run of the generator: the role tables, the mode, and the truncated SHA-256 that turns an identity
      string into a ref. */
  datatype Config = Config(roles: Roles, interactive: bool, hash: string -> string)

  function LowerChar(c: char): char {
    if 'A' <= c <= 'Z' then (c as int + 32) as char else c
  }

  function Lower(s: string): string {
    seq(|s|, i requires 0 <= i < |s| => LowerChar(s[i]))
  }

  predicate StartsWith(s: string, prefix: string) {
    |prefix| <= |s| && s[..|prefix|] == prefix
  }

  predicate Contains(s: string, part: string) {
    exists i :: 0 <= i <= |s| && StartsWith(s[i..], part)
  }

  function OrEmpty(name: Option<string>): string {
    match name
    case None => ""
    case Some(text) => text
  }

  /** Python's truth value of an optional string. */
  predicate Truthy(name: Option<string>) {
    OrEmpty(name) != ""
  }

  /** A matched line that opens a level: it goes onto the depth stack, kept or not. Lines such as `/url`
      describe the line above and never do. */
  predicate Opens(l: Line) {
    l.Matched? && !StartsWith(l.role, "/")
  }

  predicate IsFrame(l: Line) {
    Opens(l) && Lower(l.role) == "iframe"
  }

  /** The state marks that make a line worth keeping in either mode. */
  predicate Marked(suffix: string) {
    || Contains(suffix, "[cursor=pointer]")
    || Contains(suffix, "[pressed") || Contains(suffix, "[expanded")
    || Contains(suffix, "[checked") || Contains(suffix, "[selected")
    || Contains(suffix, "[disabled]")
  }

  /** Whether a line is kept, and whether it then gets a ref. */
  function ShouldKeep(roles: Roles, role: string, name: Option<string>, suffix: string, interactiveOnly: bool)
    : (bool, bool)
  {
    if role in roles.interactive || Marked(suffix) then (true, true)
    else if interactiveOnly then (false, false)
    else if role in roles.alwaysRef then (true, true)
    else if role in roles.content + roles.landmark + roles.semantic + roles.structural then (true, Truthy(name))
    else if role in roles.noise then (Truthy(name), Truthy(name))
    else (true, Truthy(name))
  }

  predicate Kept(cfg: Config, l: Line) {
    Opens(l) && ShouldKeep(cfg.roles, Lower(l.role), l.name, l.suffix, cfg.interactive).0
  }

  predicate HasRef(cfg: Config, l: Line) {
    Kept(cfg, l) && ShouldKeep(cfg.roles, Lower(l.role), l.name, l.suffix, cfg.interactive).1
  }

  /** Capital letters become small ones, everything else stays. */
  lemma LowerIs(s: string, k: nat)
    requires k < |s|
    ensures |Lower(s)| == |s|
    ensures Lower(s)[k] as int == if 'A' <= s[k] <= 'Z' then s[k] as int - 'A' as int + 'a' as int else s[k] as int
  {
  }

  /** The six marks by which a line shows a state or that it can be clicked. */
  ghost predicate ShowsState(suffix: string) {
    exists mark :: mark in ["[cursor=pointer]", "[pressed", "[expanded", "[checked", "[selected", "[disabled]"] && Contains(suffix, mark)
  }

  /** Which lines are kept, and which of them get a ref. An interactive snapshot keeps, with a ref, what can be acted upon. A
      full one drops only lines that merely group others and have no name; refs go to what can be acted upon, to items and
      cells, and to whatever has a name. */
  lemma KeptIff(cfg: Config, l: Line)
    requires Opens(l)
    ensures var r, role := cfg.roles, Lower(l.role);
            var acts, named := role in r.interactive || ShowsState(l.suffix), OrEmpty(l.name) != "";
            if cfg.interactive then (Kept(cfg, l) <==> acts) && (HasRef(cfg, l) <==> acts)
            else
              && (HasRef(cfg, l) <==> acts || role in r.alwaysRef || named)
              && (!Kept(cfg, l) <==>
                    && !acts && !named && role in r.noise
                    && role !in r.alwaysRef && role !in r.content && role !in r.landmark && role !in r.semantic && role !in r.structural)
  {
    MarksAreStates(l.suffix);
    hide Marked, ShowsState, Lower;
  }

  lemma MarksAreStates(suffix: string)
    ensures Marked(suffix) <==> ShowsState(suffix)
  {
    hide Contains;
    var marks := ["[cursor=pointer]", "[pressed", "[expanded", "[checked", "[selected", "[disabled]"];
    assert marks[0] in marks && marks[1] in marks && marks[2] in marks && marks[3] in marks && marks[4] in marks && marks[5] in marks;
  }

  /** With the program's own tables, a full snapshot drops exactly the nameless groupings without a state. */
  lemma DroppedIff(cfg: Config, l: Line)
    requires Opens(l) && !cfg.interactive && cfg.roles == BROWSER_CLI_ROLES
    ensures !Kept(cfg, l)
            <==> Lower(l.role) in {"generic", "group", "none", "presentation"} && OrEmpty(l.name) == "" && !ShowsState(l.suffix)
  {
    KeptIff(cfg, l);
    hide Kept, ShowsState, Lower, HasRef;
    if Lower(l.role) in BROWSER_CLI_ROLES.noise {
      NoiseIsApart(Lower(l.role));
    }
  }

  lemma NoiseIsApart(role: string)
    requires role in BROWSER_CLI_ROLES.noise
    ensures var r := BROWSER_CLI_ROLES;
            role !in r.interactive && role !in r.alwaysRef && role !in r.content && role !in r.landmark && role !in r.semantic
            && role !in r.structural
  {
  }
}
