/**
 * Display names for raw feature, editor and language identifiers: a fixed
 * table first, a string rewrite otherwise.  Upper-casing is ASCII only.
 */
module DisplayNames {

  const FeatureNames: map<string, string> := map[
    "chat_panel_ask_mode" := "Chat - Ask Mode",
    "chat_panel_agent_mode" := "Chat - Agent Mode",
    "chat_panel_edit_mode" := "Chat - Edit Mode",
    "code_completion" := "Code Completion",
    "inline_chat" := "Inline Chat"
  ]

  const IdeNames: map<string, string> := map[
    "vscode" := "VS Code",
    "intellij" := "IntelliJ IDEA",
    "neovim" := "Neovim",
    "vim" := "Vim",
    "jetbrains" := "JetBrains"
  ]

  predicate IsLowerAscii(c: char) { 'a' <= c <= 'z' }

  function AsciiUpper(c: char): (u: char)
    ensures !IsLowerAscii(u)
    ensures IsLowerAscii(c) ==> u as int == c as int - 32
    ensures !IsLowerAscii(c) ==> u == c
  {
    if IsLowerAscii(c) then (c as int - 32) as char else c
  }

  /** The regular-expression class `\w`: ASCII letters, digits and `_`. */
  predicate IsWordChar(c: char)
  {
    IsLowerAscii(c) || ('A' <= c <= 'Z') || ('0' <= c <= '9') || c == '_'
  }

  /** `s.replace(/_/g, ' ')`. */
  function UnderscoresToSpaces(s: string): (r: string)
    ensures |r| == |s|
    ensures forall i :: 0 <= i < |s| ==> r[i] == if s[i] == '_' then ' ' else s[i]
  {
    if s == [] then [] else [if s[0] == '_' then ' ' else s[0]] + UnderscoresToSpaces(s[1..])
  }

  /** Position `i` of `s` starts a word: `\b\w` matches there. */
  predicate StartsWord(s: string, i: int)
    requires 0 <= i < |s|
  {
    IsWordChar(s[i]) && (i == 0 || !IsWordChar(s[i - 1]))
  }

  /**
   * `s.replace(/\b\w/g, c => c.toUpperCase())`, scanning with a flag that
   * says whether the previous character was a word character.
   */
  function CapitalizeWordsFrom(s: string, afterWord: bool): (r: string)
    ensures |r| == |s|
  {
    if s == [] then []
    else
      var c := s[0];
      [if IsWordChar(c) && !afterWord then AsciiUpper(c) else c] + CapitalizeWordsFrom(s[1..], IsWordChar(c))
  }

  lemma {:induction false} CapitalizeWordsFromAt(s: string, afterWord: bool, i: nat)
    requires i < |s|
    ensures CapitalizeWordsFrom(s, afterWord)[i] ==
      if IsWordChar(s[i]) && !(if i == 0 then afterWord else IsWordChar(s[i - 1]))
      then AsciiUpper(s[i]) else s[i]
  {
    if i > 0 {
      CapitalizeWordsFromAt(s[1..], IsWordChar(s[0]), i - 1);
      assert s[1..][i - 1] == s[i];
      if i > 1 { assert s[1..][i - 2] == s[i - 1]; }
    }
  }

  /** Every word start upper-cased, every other character kept. */
  function CapitalizeWords(s: string): (r: string)
    ensures |r| == |s|
    ensures forall i :: 0 <= i < |s| ==> r[i] == if StartsWord(s, i) then AsciiUpper(s[i]) else s[i]
  {
    var r := CapitalizeWordsFrom(s, false);
    assert forall i | 0 <= i < |s| :: r[i] == if StartsWord(s, i) then AsciiUpper(s[i]) else s[i] by {
      forall i | 0 <= i < |s| ensures r[i] == if StartsWord(s, i) then AsciiUpper(s[i]) else s[i] {
        CapitalizeWordsFromAt(s, false, i);
      }
    }
    r
  }

  /** `s.charAt(0).toUpperCase() + s.slice(1)`. */
  function CapitalizeFirst(s: string): (r: string)
    ensures |r| == |s|
    ensures s != [] ==> r[0] == AsciiUpper(s[0]) && r[1..] == s[1..]
  {
    if s == [] then [] else [AsciiUpper(s[0])] + s[1..]
  }

  /**
   * `formatFeatureName`: the table's name for a known identifier; any other
   * identifier keeps its length, with its underscores turned into spaces
   * and the first letter of each word upper-cased, nothing else changed.
   */
  function FormatFeatureName(feature: string): (r: string)
    ensures feature in FeatureNames ==> r == FeatureNames[feature]
    ensures feature !in FeatureNames ==> |r| == |feature| && '_' !in r
    ensures feature !in FeatureNames ==> forall i :: 0 <= i < |feature| ==>
      var c := if feature[i] == '_' then ' ' else feature[i];
      r[i] == if IsWordChar(c) && (i == 0 || !IsWordChar(feature[i - 1]) || feature[i - 1] == '_')
              then AsciiUpper(c) else c
  {
    if feature in FeatureNames then FeatureNames[feature]
    else
      var spaced := UnderscoresToSpaces(feature);
      var r := CapitalizeWords(spaced);
      assert '_' !in r by {
        forall i | 0 <= i < |r| ensures r[i] != '_' {
          assert spaced[i] != '_';
        }
      }
      r
  }

  /**
   * `formatIdeName`: the table's name for a known editor; any other editor
   * keeps its length, with only its first character upper-cased.
   */
  function FormatIdeName(ide: string): (r: string)
    ensures ide in IdeNames ==> r == IdeNames[ide]
    ensures ide !in IdeNames ==> |r| == |ide|
    ensures ide !in IdeNames && ide != [] ==> r[0] == AsciiUpper(ide[0]) && r[1..] == ide[1..]
  {
    if ide in IdeNames then IdeNames[ide] else CapitalizeFirst(ide)
  }

  /** Language names are only capitalised: the first character upper-cased, the rest kept. */
  function FormatLanguageName(language: string): (r: string)
    ensures |r| == |language|
    ensures language != [] ==> r[0] == AsciiUpper(language[0]) && r[1..] == language[1..]
  {
    CapitalizeFirst(language)
  }

  /** Underscores are the only characters the first rewrite touches. */
  lemma SpacedNameUnchanged(s: string)
    requires '_' !in s
    ensures UnderscoresToSpaces(s) == s
  {
    var r := UnderscoresToSpaces(s);
    forall i | 0 <= i < |s| ensures r[i] == s[i] {
      assert s[i] in s;
    }
  }

  /** Upper-casing word starts keeps which characters are word characters. */
  lemma CapitalizeWordsKeepsWords(s: string)
    ensures forall i :: 0 <= i < |s| ==> (IsWordChar(CapitalizeWords(s)[i]) <==> IsWordChar(s[i]))
  {
  }

  /** Upper-casing the word starts twice is doing it once. */
  lemma CapitalizeWordsIdempotent(s: string)
    ensures CapitalizeWords(CapitalizeWords(s)) == CapitalizeWords(s)
  {
    var t := CapitalizeWords(s);
    var u := CapitalizeWords(t);
    CapitalizeWordsKeepsWords(s);
    forall i | 0 <= i < |s| ensures u[i] == t[i] {
      assert StartsWord(t, i) == StartsWord(s, i);
    }
  }

  /** Lower-case letters occur only inside words, never at a word start. */
  predicate LowerOnlyInsideWords(s: string)
  {
    forall i :: 0 <= i < |s| && IsLowerAscii(s[i]) ==> i > 0 && IsWordChar(s[i - 1])
  }

  /** A name whose every word already starts upper-case is its own capitalisation. */
  lemma CapitalizedWordsAreFixed(s: string)
    requires LowerOnlyInsideWords(s)
    ensures CapitalizeWords(s) == s
  {
    var r := CapitalizeWords(s);
    forall i | 0 <= i < |s| ensures r[i] == s[i] {
      if StartsWord(s, i) {
        assert !IsLowerAscii(s[i]);
      }
    }
  }

  /** A name with no underscore and every word capitalised is no table key and formats to itself. */
  lemma CapitalizedNameIsFixed(shown: string)
    requires '_' !in shown && LowerOnlyInsideWords(shown)
    ensures shown !in FeatureNames
    ensures FormatFeatureName(shown) == shown
  {
    assert shown !in FeatureNames by {
      forall k | k in FeatureNames ensures '_' in k {
        assert k == "chat_panel_ask_mode" || k == "chat_panel_agent_mode" || k == "chat_panel_edit_mode"
            || k == "code_completion" || k == "inline_chat";
        assert k[4] == '_' || k[6] == '_';
      }
    }
    SpacedNameUnchanged(shown);
    CapitalizedWordsAreFixed(shown);
  }

  /** The display names of the feature table are left alone by the fallback. */
  lemma FeatureTableValuesAreFixed(key: string)
    requires key in FeatureNames
    ensures FeatureNames[key] !in FeatureNames
    ensures FormatFeatureName(FeatureNames[key]) == FeatureNames[key]
  {
    if key == "chat_panel_ask_mode" {
      AskModeIsFixed(key);
    } else if key == "chat_panel_agent_mode" {
      AgentModeIsFixed(key);
    } else if key == "chat_panel_edit_mode" {
      EditModeIsFixed(key);
    } else if key == "code_completion" {
      CodeCompletionIsFixed(key);
    } else {
      InlineChatIsFixed(key);
    }
  }

  // One lemma per table entry, each reading its display name character by
  // character, so that every proof looks up a single entry of the table.

  lemma AskModeIsFixed(key: string)
    requires key == "chat_panel_ask_mode"
    ensures FeatureNames[key] !in FeatureNames
    ensures FormatFeatureName(FeatureNames[key]) == FeatureNames[key]
  {
    assert FeatureNames[key] == ['C','h','a','t',' ','-',' ','A','s','k',' ','M','o','d','e'];
    CapitalizedNameIsFixed(FeatureNames[key]);
  }

  lemma AgentModeIsFixed(key: string)
    requires key == "chat_panel_agent_mode"
    ensures FeatureNames[key] !in FeatureNames
    ensures FormatFeatureName(FeatureNames[key]) == FeatureNames[key]
  {
    assert FeatureNames[key] == ['C','h','a','t',' ','-',' ','A','g','e','n','t',' ','M','o','d','e'];
    CapitalizedNameIsFixed(FeatureNames[key]);
  }

  lemma EditModeIsFixed(key: string)
    requires key == "chat_panel_edit_mode"
    ensures FeatureNames[key] !in FeatureNames
    ensures FormatFeatureName(FeatureNames[key]) == FeatureNames[key]
  {
    assert FeatureNames[key] == ['C','h','a','t',' ','-',' ','E','d','i','t',' ','M','o','d','e'];
    CapitalizedNameIsFixed(FeatureNames[key]);
  }

  lemma CodeCompletionIsFixed(key: string)
    requires key == "code_completion"
    ensures FeatureNames[key] !in FeatureNames
    ensures FormatFeatureName(FeatureNames[key]) == FeatureNames[key]
  {
    assert FeatureNames[key] == ['C','o','d','e',' ','C','o','m','p','l','e','t','i','o','n'];
    CapitalizedNameIsFixed(FeatureNames[key]);
  }

  lemma InlineChatIsFixed(key: string)
    requires key == "inline_chat"
    ensures FeatureNames[key] !in FeatureNames
    ensures FormatFeatureName(FeatureNames[key]) == FeatureNames[key]
  {
    assert FeatureNames[key] == ['I','n','l','i','n','e',' ','C','h','a','t'];
    CapitalizedNameIsFixed(FeatureNames[key]);
  }

  /** Formatting a displayed feature name again changes nothing. */
  lemma FeatureNameIdempotent(feature: string)
    ensures FormatFeatureName(FormatFeatureName(feature)) == FormatFeatureName(feature)
  {
    var shown := FormatFeatureName(feature);
    if feature in FeatureNames {
      FeatureTableValuesAreFixed(feature);
    } else {
      assert "chat_panel_ask_mode"[4] == '_' && "chat_panel_agent_mode"[4] == '_'
        && "chat_panel_edit_mode"[4] == '_' && "code_completion"[4] == '_' && "inline_chat"[6] == '_';
      assert shown !in FeatureNames;
      SpacedNameUnchanged(shown);
      CapitalizeWordsIdempotent(UnderscoresToSpaces(feature));
    }
  }

  /** Formatting a displayed editor name again changes nothing. */
  lemma IdeNameIdempotent(ide: string)
    ensures FormatIdeName(FormatIdeName(ide)) == FormatIdeName(ide)
  {
    var shown := FormatIdeName(ide);
    if ide in IdeNames {
      assert shown in IdeNames.Values;
      assert shown !in IdeNames;
    } else if ide != [] {
      assert !IsLowerAscii(shown[0]);
      assert shown !in IdeNames;
      assert shown[1..] == ide[1..];
    }
  }

  /** Capitalising a language name twice is capitalising it once. */
  lemma LanguageNameIdempotent(language: string)
    ensures FormatLanguageName(FormatLanguageName(language)) == FormatLanguageName(language)
  {
  }

  /**
   * Views group on the raw identifier and format afterwards, so two rows can
   * show the same name: a table key and its display name, written raw, are
   * different identifiers with one display name.
   */
  lemma DisplayNamesCanCoincide()
    ensures "code_completion" != "Code Completion"
    ensures FormatFeatureName("code_completion") == FormatFeatureName("Code Completion")
  {
    var key := "code_completion";
    FeatureTableValuesAreFixed(key);
  }
}
