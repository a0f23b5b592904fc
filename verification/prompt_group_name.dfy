/**
 * `PromptGroupInputDialog.__setAccept`: whether the OK button is enabled
 * for the name typed so far, given the prompt groups already stored.
 */
module PromptGroupName {

  /** A stored prompt-group row; the name is its second column. */
  datatype GroupRow = GroupRow(id: int, name: string)

  /** The character class `[a-zA-Z_0-9]`. */
  predicate IsWordChar(c: char) {
    'a' <= c <= 'z' || 'A' <= c <= 'Z' || c == '_' || '0' <= c <= '9'
  }

  predicate AllWordChars(s: string) {
    forall i :: 0 <= i < |s| ==> IsWordChar(s[i])
  }

  /**
   * Python's `re.search('^[a-zA-Z_0-9]+$', text)` succeeds: one or more word
   * characters from the start, then `$`, which matches at the very end or
   * just before a final newline.
   */
  predicate PatternMatches(text: string) {
    || (|text| > 0 && AllWordChars(text))
    || (|text| > 1 && text[|text| - 1] == '\n' && AllWordChars(text[..|text| - 1]))
  }

  /** The matcher's run: take word characters greedily from the start, then test `$`. */
  method Search(text: string) returns (found: bool)
    ensures found <==> PatternMatches(text)
  {
    var i := 0;
    while i < |text| && IsWordChar(text[i])
      invariant 0 <= i <= |text|
      invariant AllWordChars(text[..i])
    {
      i := i + 1;
    }
    // giving back characters cannot help: `$` never matches before a word character
    found := i > 0 && (i == |text| || (i == |text| - 1 && text[i] == '\n'));
    if found && i == |text| {
      assert text[..i] == text;
    }
  }

  /** `[obj[1] for obj in rows]`. */
  function Names(rows: seq<GroupRow>): (ns: seq<string>)
    ensures |ns| == |rows|
    ensures forall i :: 0 <= i < |rows| ==> ns[i] == rows[i].name
  {
    if |rows| == 0 then [] else [rows[0].name] + Names(rows[1..])
  }

  /** `__setAccept`: the name matches the pattern and is not already a group name. */
  function Accept(text: string, propGroups: seq<GroupRow>, templateGroups: seq<GroupRow>): (ok: bool)
    ensures ok ==> |text| > 0
    ensures ok ==> forall i :: 0 <= i < |text| && !IsWordChar(text[i]) ==> i == |text| - 1 && text[i] == '\n'
    ensures ok ==> forall r :: r in propGroups + templateGroups ==> r.name != text
    ensures (|text| > 0 && AllWordChars(text)) && (forall r :: r in propGroups + templateGroups ==> r.name != text) ==> ok
    ensures ok <==> PatternMatches(text) && forall r :: r in propGroups + templateGroups ==> r.name != text
  {
    NameInRows(text, propGroups + templateGroups);
    PatternMatches(text) && text !in Names(propGroups + templateGroups)
  }

  /** The name line edit and the enabled state of the OK button. */
  datatype Dialog = Dialog(text: string, okEnabled: bool)

  /** `__initUi`: the name starts empty and the OK button starts enabled, since no text change has happened yet. */
  const Opened: Dialog := Dialog("", true)

  /**
   * Setting the line edit's text.  The toolkit emits `textChanged` only when
   * the text differs from the current one; then `__setAccept` sets the button
   * from the new text.
   */
  function TextChanged(d: Dialog, text: string, propGroups: seq<GroupRow>, templateGroups: seq<GroupRow>): (e: Dialog)
    ensures e.text == text
    ensures text == d.text ==> e == d
    ensures text != d.text ==> (e.okEnabled <==> Accept(text, propGroups, templateGroups))
  {
    if text == d.text then d else Dialog(text, Accept(text, propGroups, templateGroups))
  }

  /** A run of edits: the dialog ends on the last text, and edits that keep the text change nothing. */
  function Edit(d: Dialog, texts: seq<string>, propGroups: seq<GroupRow>, templateGroups: seq<GroupRow>): (e: Dialog)
    ensures e.text == if |texts| == 0 then d.text else texts[|texts| - 1]
    ensures (forall i :: 0 <= i < |texts| ==> texts[i] == d.text) ==> e == d
    decreases |texts|
  {
    if |texts| == 0 then d else Edit(TextChanged(d, texts[0], propGroups, templateGroups), texts[1..], propGroups, templateGroups)
  }

  /**
   * Until the text first differs from the empty name, the dialog is as
   * opened: OK enabled although `Accept("")` is false.  From then on OK shows
   * `Accept` of the current text.
   */
  lemma {:induction false} ButtonFollowsLastEdit(texts: seq<string>, propGroups: seq<GroupRow>, templateGroups: seq<GroupRow>)
    ensures var d := Edit(Opened, texts, propGroups, templateGroups);
            && ((forall i :: 0 <= i < |texts| ==> texts[i] == "") ==>
                  d == Opened && d.okEnabled && !Accept(d.text, propGroups, templateGroups))
            && ((exists i :: 0 <= i < |texts| && texts[i] != "") ==>
                  (d.okEnabled <==> Accept(d.text, propGroups, templateGroups)))
    decreases |texts|
  {
    if |texts| > 0 {
      if texts[0] == "" {
        ButtonFollowsLastEdit(texts[1..], propGroups, templateGroups);
        if exists i :: 0 <= i < |texts| && texts[i] != "" {
          var i :| 0 <= i < |texts| && texts[i] != "";
          assert texts[1..][i - 1] != "";
        }
      } else {
        EditKeepsAccept(TextChanged(Opened, texts[0], propGroups, templateGroups), texts[1..], propGroups, templateGroups);
      }
    }
  }

  /** Once OK shows `Accept` of the text, every further edit keeps it so. */
  lemma {:induction false} EditKeepsAccept(d: Dialog, texts: seq<string>,
                                           propGroups: seq<GroupRow>, templateGroups: seq<GroupRow>)
    requires d.okEnabled <==> Accept(d.text, propGroups, templateGroups)
    ensures var e := Edit(d, texts, propGroups, templateGroups);
            e.okEnabled <==> Accept(e.text, propGroups, templateGroups)
    decreases |texts|
  {
    if |texts| > 0 {
      EditKeepsAccept(TextChanged(d, texts[0], propGroups, templateGroups), texts[1..], propGroups, templateGroups);
    }
  }

  /** `__setAccept` computes False for the empty name. */
  lemma EmptyRejected(propGroups: seq<GroupRow>, templateGroups: seq<GroupRow>)
    ensures !Accept("", propGroups, templateGroups)
  {
  }

  /** A name equal, case included, to any stored group name is rejected. */
  lemma ExistingNameRejected(text: string, propGroups: seq<GroupRow>, templateGroups: seq<GroupRow>, r: GroupRow)
    requires r in propGroups || r in templateGroups
    requires r.name == text
    ensures !Accept(text, propGroups, templateGroups)
  {
    assert r in propGroups + templateGroups;
  }

  /** Any character outside the ASCII class, such as an accented letter, is rejected unless it is a final newline. */
  lemma NonWordCharRejected(text: string, i: nat, propGroups: seq<GroupRow>, templateGroups: seq<GroupRow>)
    requires i < |text| && !IsWordChar(text[i])
    requires !(i == |text| - 1 && text[i] == '\n')
    ensures !Accept(text, propGroups, templateGroups)
  {
  }

  /** `$` also matches before one final newline: "abc\n" passes, "abc\n\n" does not. */
  lemma TrailingNewline()
    ensures Accept("abc\n", [], [])
    ensures !Accept("abc\n\n", [], [])
  {
    assert AllWordChars("abc\n"[..3]) by {
      assert "abc\n"[..3] == "abc";
    }
    assert !IsWordChar("abc\n\n"[3]);
  }

  /** The decision depends only on the text and the set of names stored. */
  lemma DependsOnlyOnNames(text: string, p1: seq<GroupRow>, t1: seq<GroupRow>, p2: seq<GroupRow>, t2: seq<GroupRow>)
    requires forall n :: n in Names(p1 + t1) <==> n in Names(p2 + t2)
    ensures Accept(text, p1, t1) == Accept(text, p2, t2)
  {
  }

  /** A stored name is found by the `in` test exactly when some row of either list carries it. */
  lemma {:induction false} NameInRows(n: string, rows: seq<GroupRow>)
    ensures n in Names(rows) <==> exists r :: r in rows && r.name == n
  {
    if n in Names(rows) {
      var i :| 0 <= i < |rows| && Names(rows)[i] == n;
      assert rows[i] in rows;
    }
  }
}
