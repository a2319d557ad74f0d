/** The column-name -> comment dictionary that extractTableInfo builds from two scans of the
    raw SQL. The scans themselves are regular-expression searches; here each scan is given as
    the sequence of its matches, and the dictionary is built from the first scan's matches
    followed by the second's. */
module Comments {
  import opened Schema

  /** The dictionary after storing every match in order: a later match for a name replaces
      an earlier one. */
  function Dictionary(matches: seq<CommentMatch>): map<string, string>
    decreases |matches|
  {
    if matches == [] then map[]
    else
      var last := matches[|matches| - 1];
      Dictionary(matches[..|matches| - 1])[last.name := last.text]
  }

  /** Storing one more match updates the dictionary of the earlier ones. */
  lemma DictionarySnoc(matches: seq<CommentMatch>, i: nat)
    requires i < |matches|
    ensures Dictionary(matches[..i + 1]) == Dictionary(matches[..i])[matches[i].name := matches[i].text]
  {
    assert matches[..i + 1][..i] == matches[..i];
  }

  /** `comments[name] || ''`: the stored text, or the empty text for a name no match stored. */
  function CommentFor(dict: map<string, string>, name: string): string {
    if name in dict then dict[name] else ""
  }

  /** Match `i` is the last match for `name`. */
  predicate IsLastMatch(matches: seq<CommentMatch>, name: string, i: int) {
    0 <= i < |matches| && matches[i].name == name
    && forall j :: i < j < |matches| ==> matches[j].name != name
  }

  predicate HasMatch(matches: seq<CommentMatch>, name: string) {
    exists i :: 0 <= i < |matches| && matches[i].name == name
  }

  /** Last write wins: a name is in the dictionary iff some match has it, and then it holds
      the text of the last such match. */
  lemma {:induction false} DictionaryLastWins(matches: seq<CommentMatch>, name: string)
    ensures name in Dictionary(matches) <==> HasMatch(matches, name)
    ensures forall i :: IsLastMatch(matches, name, i) ==> Dictionary(matches)[name] == matches[i].text
  {
    if matches != [] {
      var n := |matches| - 1;
      var init := matches[..n];
      DictionaryLastWins(init, name);
      if matches[n].name != name {
        assert HasMatch(init, name) ==> HasMatch(matches, name);
        assert HasMatch(matches, name) ==> HasMatch(init, name) by {
          if HasMatch(matches, name) {
            var i :| 0 <= i < |matches| && matches[i].name == name;
            assert init[i].name == name;
          }
        }
        forall i | IsLastMatch(matches, name, i)
          ensures Dictionary(matches)[name] == matches[i].text
        {
          assert IsLastMatch(init, name, i);
        }
      } else {
        assert HasMatch(matches, name);
      }
    }
  }

  /** Storing the matches of two passes one after the other is the first dictionary
      overridden by the second. */
  lemma {:induction false} DictionaryAppend(first: seq<CommentMatch>, second: seq<CommentMatch>)
    ensures Dictionary(first + second) == Dictionary(first) + Dictionary(second)
    decreases |second|
  {
    if second == [] {
      assert first + second == first;
    } else {
      var n := |second| - 1;
      assert (first + second)[..|first + second| - 1] == first + second[..n];
      DictionaryAppend(first, second[..n]);
    }
  }

  /** A second-pass match overrides whatever the first pass stored for the same name; a name
      the second pass never matched keeps its first-pass text. */
  lemma SecondPassOverrides(first: seq<CommentMatch>, second: seq<CommentMatch>, name: string)
    ensures forall i :: IsLastMatch(second, name, i) ==> CommentFor(Dictionary(first + second), name) == second[i].text
    ensures !HasMatch(second, name) ==> CommentFor(Dictionary(first + second), name) == CommentFor(Dictionary(first), name)
  {
    DictionaryAppend(first, second);
    DictionaryLastWins(second, name);
  }

  /** With non-empty match texts (the scans capture at least one character), a column's comment
      is empty exactly when no match names it. */
  lemma CommentEmptyIffUnmatched(matches: seq<CommentMatch>, name: string)
    requires forall i :: 0 <= i < |matches| ==> matches[i].text != ""
    ensures CommentFor(Dictionary(matches), name) == "" <==> !HasMatch(matches, name)
  {
    DictionaryLastWins(matches, name);
    if HasMatch(matches, name) {
      var i := LastIndex(matches, name);
      assert Dictionary(matches)[name] == matches[i].text;
    }
  }

  /** The index of the last match for `name`. */
  function LastIndex(matches: seq<CommentMatch>, name: string): (i: int)
    requires HasMatch(matches, name)
    ensures IsLastMatch(matches, name, i)
    decreases |matches|
  {
    var n := |matches| - 1;
    if matches[n].name == name then n
    else
      assert HasMatch(matches[..n], name) by {
        var k :| 0 <= k < |matches| && matches[k].name == name;
        assert matches[..n][k].name == name;
      }
      LastIndex(matches[..n], name)
  }

  // The source stores the comments in a plain JavaScript object literal `{}`. The members
  // below model that object as written: a name the scans never stored can still find a member
  // inherited from Object.prototype, and storing under `__proto__` changes nothing.

  /** The member names every object literal inherits from Object.prototype. */
  const INHERITED_NAMES: set<string> := {
    "constructor", "__proto__", "hasOwnProperty", "isPrototypeOf", "propertyIsEnumerable",
    "toString", "toLocaleString", "valueOf",
    "__defineGetter__", "__defineSetter__", "__lookupGetter__", "__lookupSetter__"
  }

  /** The text such an inherited member turns into inside a template literal (as V8 prints
      functions): never empty, so `|| ''` does not replace it. */
  function InheritedText(name: string): (text: string)
    requires name in INHERITED_NAMES
    ensures text != ""
  {
    if name == "__proto__" then "[object Object]"
    else if name == "constructor" then "function Object() { [native code] }"
    else "function " + name + "() { [native code] }"
  }

  /** `comments[name] = text` on the object: the `__proto__` setter ignores a string. */
  function StoreAsWritten(dict: map<string, string>, name: string, text: string): map<string, string> {
    if name == "__proto__" then dict else dict[name := text]
  }

  function DictionaryAsWritten(matches: seq<CommentMatch>): map<string, string>
    decreases |matches|
  {
    if matches == [] then map[]
    else
      var last := matches[|matches| - 1];
      StoreAsWritten(DictionaryAsWritten(matches[..|matches| - 1]), last.name, last.text)
  }

  /** `comments[name] || ''` on the object: own entries first, then inherited members. */
  function CommentAsWritten(dict: map<string, string>, name: string): string {
    if name in dict then dict[name]
    else if name in INHERITED_NAMES then InheritedText(name)
    else ""
  }

  /** Every name other than `__proto__` is stored by the object exactly as by the dictionary. */
  lemma {:induction false} AsWrittenStoresAllButProto(matches: seq<CommentMatch>, name: string)
    requires name != "__proto__"
    ensures name in DictionaryAsWritten(matches) <==> name in Dictionary(matches)
    ensures name in Dictionary(matches) ==> DictionaryAsWritten(matches)[name] == Dictionary(matches)[name]
    decreases |matches|
  {
    if matches != [] {
      AsWrittenStoresAllButProto(matches[..|matches| - 1], name);
    }
  }

  /** A column named `constructor` that no scan matched gets the text of the inherited
      constructor function as its comment; the dictionary lookup gives none. */
  lemma ConstructorColumnGetsComment(matches: seq<CommentMatch>)
    requires !HasMatch(matches, "constructor")
    ensures CommentAsWritten(DictionaryAsWritten(matches), "constructor") == "function Object() { [native code] }"
    ensures CommentFor(Dictionary(matches), "constructor") == ""
  {
    DictionaryLastWins(matches, "constructor");
    AsWrittenStoresAllButProto(matches, "constructor");
  }

  /** A `__proto__` column's scanned comment is lost and replaced by "[object Object]". */
  lemma ProtoCommentIsLost()
    ensures CommentAsWritten(DictionaryAsWritten([CommentMatch("__proto__", "id")]), "__proto__") == "[object Object]"
    ensures CommentFor(Dictionary([CommentMatch("__proto__", "id")]), "__proto__") == "id"
  {
    assert [CommentMatch("__proto__", "id")][..0] == [];
  }

  /** Away from the inherited names, looking a column up in the object gives the dictionary's
      comment, whatever the matches are, a `__proto__` match included. */
  lemma AsWrittenLookupAgrees(matches: seq<CommentMatch>, name: string)
    requires name !in INHERITED_NAMES
    ensures name in DictionaryAsWritten(matches) <==> name in Dictionary(matches)
    ensures name in Dictionary(matches) ==> DictionaryAsWritten(matches)[name] == Dictionary(matches)[name]
    ensures CommentAsWritten(DictionaryAsWritten(matches), name) == CommentFor(Dictionary(matches), name)
  {
    AsWrittenStoresAllButProto(matches, name);
  }

  /** Without a `__proto__` match, the object holds exactly the dictionary's entries. */
  lemma {:induction false} AsWrittenAgreesOffPrototype(matches: seq<CommentMatch>)
    requires !HasMatch(matches, "__proto__")
    ensures DictionaryAsWritten(matches) == Dictionary(matches)
    decreases |matches|
  {
    if matches != [] {
      var n := |matches| - 1;
      AsWrittenAgreesOffPrototype(matches[..n]);
      assert matches[n].name != "__proto__";
    }
  }
}
