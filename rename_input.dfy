/** The inline rename box of the file tree: it holds the typed name and,
    on Enter or when it loses focus, either saves the trimmed name or
    cancels; Escape cancels. */
module RenameInput {
  import opened Wrappers
  import opened JsText

  /** Which callback the box calls, and with what. */
  datatype Callback = Save(newName: string) | Cancel

  /** `handleSave`'s choice: save the trimmed text when it is not empty
      and differs from the name the box started with. */
  function SaveDecision(value: string, initialValue: string): Callback {
    var trimmed := Trim(value);
    if trimmed != "" && trimmed != initialValue then Save(trimmed) else Cancel
  }

  /** What a key press does: the callback it calls, if any, and whether
      the browser's default action is suppressed. */
  datatype KeyEffect = KeyEffect(callback: Option<Callback>, preventDefault: bool)

  function KeyDown(key: string, value: string, initialValue: string): KeyEffect {
    if key == "Enter" then KeyEffect(Some(SaveDecision(value, initialValue)), true)
    else if key == "Escape" then KeyEffect(Some(Cancel), true)
    else KeyEffect(None, false)
  }

  class Box {
    var value: string
    const initialValue: string

    constructor (initialValue: string)
      ensures value == initialValue && this.initialValue == initialValue
    {
      value := initialValue;
      this.initialValue := initialValue;
    }

    /** `onChange`. */
    method SetValue(typed: string)
      modifies this
      ensures value == typed
    {
      value := typed;
    }

    /** `handleSave`, also run on blur. */
    method HandleSave() returns (called: Callback)
      ensures called == SaveDecision(value, initialValue)
    {
      var trimmed := Trim(value);
      if trimmed != "" && trimmed != initialValue {
        called := Save(trimmed);
      } else {
        called := Cancel;
      }
    }

    method HandleBlur() returns (called: Callback)
      ensures called == SaveDecision(value, initialValue)
    {
      called := HandleSave();
    }

    /** `handleKeyDown`. */
    method HandleKeyDown(key: string) returns (effect: KeyEffect)
      ensures effect == KeyDown(key, value, initialValue)
    {
      if key == "Enter" {
        var called := HandleSave();
        effect := KeyEffect(Some(called), true);
      } else if key == "Escape" {
        effect := KeyEffect(Some(Cancel), true);
      } else {
        effect := KeyEffect(None, false);
      }
    }
  }

  // ---- Properties ----

  /** Saving happens exactly for a non-blank text whose trimmed form is a
      new name; the saved name is that trimmed form. */
  lemma SaveIff(value: string, initialValue: string)
    ensures SaveDecision(value, initialValue).Save? <==> Trim(value) != "" && Trim(value) != initialValue
    ensures SaveDecision(value, initialValue).Save? ==> SaveDecision(value, initialValue).newName == Trim(value)
  {
  }

  /** A saved name never has white space at either end and is never empty. */
  lemma SavedNameIsTrimmed(value: string, initialValue: string)
    requires SaveDecision(value, initialValue).Save?
    ensures var n := SaveDecision(value, initialValue).newName;
      n != "" && Trim(n) == n && n != initialValue
  {
    var n := Trim(value);
    TrimSlice(value);
    TrimNoop(n);
  }

  /** Saving an untouched box cancels when the name has no surrounding white
      space; a blank box always cancels. */
  lemma UntouchedOrBlankCancels(value: string, initialValue: string)
    ensures Trim(initialValue) == initialValue ==> SaveDecision(initialValue, initialValue) == Cancel
    ensures Trim(value) == "" ==> SaveDecision(value, initialValue) == Cancel
  {
  }

  /** An untouched box whose name has surrounding white space saves the
      trimmed name. */
  lemma UntouchedPaddedNameSaves()
    ensures SaveDecision(" a", " a") == Save("a")
  {
    assert TrimStart(" a") == "a";
    assert TrimEnd("a") == "a";
  }

  /** Enter behaves as saving, Escape cancels, and any other key calls
      nothing and leaves the default action alone. */
  lemma KeyDownSpec(key: string, value: string, initialValue: string)
    ensures key == "Enter" ==> KeyDown(key, value, initialValue).callback == Some(SaveDecision(value, initialValue))
    ensures key == "Escape" ==> KeyDown(key, value, initialValue).callback == Some(Cancel)
    ensures KeyDown(key, value, initialValue).callback.None? <==> key != "Enter" && key != "Escape"
    ensures KeyDown(key, value, initialValue).preventDefault <==> KeyDown(key, value, initialValue).callback.Some?
  {
  }
}
