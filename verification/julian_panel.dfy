/**
 * The answer panel the page script injects and the stand-alone sidebar page share: the title
 * for each kind of response, the formatting of a response as HTML, the sidebar's visibility,
 * and the rule that only non-blank input is sent.
 */
module JulianPanel {
  import opened Wrappers
  import opened Text
  import opened Json
  import JulianBackground

  // ---------------------------------------------------------------- formatting

  /** The heading shown above a response of the given kind. */
  function Title(kind: string): (t: string)
    ensures kind == "summarize" <==> t == "Page Summary"
    ensures kind == "askJulian" <==> t == "Julian's Answer"
    ensures kind == "generate" <==> t == "Generated Text"
    ensures kind !in {"summarize", "askJulian", "generate"} <==> t == "Response"
  {
    if kind == "summarize" then "Page Summary"
    else if kind == "askJulian" then "Julian's Answer"
    else if kind == "generate" then "Generated Text"
    else "Response"
  }

  /** Replaces every line break with `<br>` and keeps every other character. */
  function BreakLines(s: string): (r: string)
    ensures '\n' !in r
    ensures '\n' !in s ==> r == s
  {
    ReplaceEveryChar(s, '\n', "<br>")
  }

  /** Turns each `<br>` back into a line break. */
  function UnbreakLines(s: string): string
  {
    if |s| == 0 then ""
    else if |s| >= 4 && s[..4] == "<br>" then "\n" + UnbreakLines(s[4..])
    else [s[0]] + UnbreakLines(s[1..])
  }

  /** For text without `<`, turning breaks back into line breaks recovers the text exactly. */
  lemma {:induction false} BreakLinesRoundTrip(s: string)
    requires '<' !in s
    ensures UnbreakLines(BreakLines(s)) == s
  {
    if |s| > 0 {
      var rest := BreakLines(s[1..]);
      assert BreakLines(s) == (if s[0] == '\n' then "<br>" else [s[0]]) + rest;
      BreakLinesRoundTrip(s[1..]);
      var b := BreakLines(s);
      if s[0] == '\n' {
        assert b[..4] == "<br>" && b[4..] == rest;
      } else {
        assert b[0] == s[0] && b[1..] == rest;
        assert |b| < 4 || b[..4] != "<br>" by {
          if |b| >= 4 { assert b[..4][0] == s[0]; }
        }
      }
    }
  }

  /**
   * `formatResponse(text)`: objects, arrays and `null` (whose `typeof` is "object") are
   * stringified first; strings are used as they are; a number or boolean has no `replace`, so
   * formatting it throws.
   */
  function FormatResponse(text: Json, stringify: Json -> string): (r: Result<string, string>)
    ensures r.Success? <==> !(text.JNum? || text.JBool?)
    ensures r.Success? ==> '\n' !in r.value
    ensures text.JStr? ==> r == Success(BreakLines(text.s))
    ensures text.JObj? || text.JArr? || text.JNull? ==> r == Success(BreakLines(stringify(text)))
  {
    match text
    case JStr(s) => Success(BreakLines(s))
    case JNum(_) => Failure("TypeError: text.replace is not a function")
    case JBool(_) => Failure("TypeError: text.replace is not a function")
    case _ => Success(BreakLines(stringify(text)))
  }

  // ---------------------------------------------------------------- sidebar visibility

  /** The injected sidebar: whether it exists yet and whether it is slid in. */
  datatype Sidebar = Sidebar(created: bool, visible: bool)
  {
    /** A sidebar is only ever visible once it exists. */
    predicate Valid() { visible ==> created }
  }

  function ShowSidebar(sb: Sidebar): (r: Sidebar)
    ensures r.Valid() && r.visible && r.created
  {
    Sidebar(true, true)
  }

  function HideSidebar(sb: Sidebar): (r: Sidebar)
    ensures sb.Valid() ==> r.Valid() && !r.visible
    ensures r.created == sb.created
  {
    if sb.created then sb.(visible := false) else sb
  }

  function ToggleSidebar(sb: Sidebar): (r: Sidebar)
    ensures sb.Valid() ==> r.Valid() && r.visible == !sb.visible
    ensures sb.created ==> r.created
  {
    if sb.visible then HideSidebar(sb) else ShowSidebar(sb)
  }

  /** Toggling twice brings an existing sidebar back to where it was. */
  lemma ToggleTwice(sb: Sidebar)
    requires sb.Valid() && sb.created
    ensures ToggleSidebar(ToggleSidebar(sb)) == sb
  {
  }

  // ---------------------------------------------------------------- the page panel

  /** What the response area shows. */
  datatype Panel = Blank | Loading | Answer(title: string, html: string) | ErrorText(error: string)

  /** The injected sidebar together with its response area and its input box. */
  datatype Page = Page(sidebar: Sidebar, panel: Panel, input: string)

  /** What a button sends to the background script. */
  datatype Request = AskJulian(text: string) | Generate(text: string)

  /**
   * The Ask and Generate buttons: only non-blank input, trimmed, is sent, and the panel then
   * shows the loading indicator; blank input changes nothing.
   */
  function Submit(page: Page, generate: bool): (r: (Page, Option<Request>))
    ensures r.1.Some? <==> Trim(page.input) != ""
    ensures r.1.Some? ==> r.1.value.text == Trim(page.input) && r.0 == page.(panel := Loading)
    ensures r.1.Some? ==> (r.1.value.Generate? <==> generate)
    ensures r.1.None? ==> r.0 == page
  {
    var text := Trim(page.input);
    if text == "" then (page, None)
    else (page.(panel := Loading), Some(if generate then Generate(text) else AskJulian(text)))
  }

  /** Input that is only white space is never sent. */
  lemma BlankInputIsNotSent(page: Page, generate: bool)
    requires AllSpace(page.input)
    ensures Submit(page, generate).1.None?
  {
    TrimEmpty(page.input);
  }

  /**
   * The page script's handling of a message from the background script: a response or an error
   * slides the sidebar in and fills the panel; a response that cannot be formatted leaves the
   * panel as it was.
   */
  function Receive(page: Page, msg: JulianBackground.TabMessage, stringify: Json -> string): (r: Page)
    ensures page.sidebar.Valid() ==> r.sidebar.Valid()
    ensures r.sidebar.visible && r.input == page.input
    ensures msg.ShowError? ==> r.panel == ErrorText(msg.error)
    ensures msg.ShowResponse? && FormatResponse(msg.text, stringify).Success? ==>
              r.panel == Answer(Title(msg.kind), FormatResponse(msg.text, stringify).value)
    ensures msg.ShowResponse? && FormatResponse(msg.text, stringify).Failure? ==> r.panel == page.panel
  {
    var shown := page.(sidebar := ShowSidebar(page.sidebar));
    match msg
    case ShowError(e) => shown.(panel := ErrorText(e))
    case ShowResponse(text, kind, _) =>
      match FormatResponse(text, stringify)
      case Success(html) => shown.(panel := Answer(Title(kind), html))
      case Failure(_) => shown
  }

  /**
   * A key pressed in the sidebar page's input: Enter without Shift acts exactly like the Ask
   * button; any other key, Shift+Enter included, sends nothing and changes nothing here.
   */
  function KeyDown(page: Page, key: string, shift: bool): (r: (Page, Option<Request>))
    ensures key == "Enter" && !shift ==> r == Submit(page, false)
    ensures key != "Enter" || shift ==> r == (page, None)
    ensures r.1.Some? ==> r.1.value.AskJulian? && r.1.value.text == Trim(page.input)
  {
    if key == "Enter" && !shift then Submit(page, false) else (page, None)
  }
}
