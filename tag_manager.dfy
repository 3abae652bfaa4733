/** The tag editor: a list of tags that grows by normalised, unique entries
    up to a cap, shrinks by removal, colours each tag from its character
    codes, and offers the predefined tags not yet present for quick adding. */
module TagManager {
  import opened Wrappers
  import opened JsText
  import opened Sequences

  const PredefinedTags: seq<string> := [
    "Battery", "CV", "EIS", "Corrosion", "Catalyst", "Fuel Cell", "Supercapacitor",
    "Important", "In Progress", "Completed", "Review Needed"]

  const TagColors: seq<string> := [
    "bg-red-100 text-red-800 border-red-200",
    "bg-blue-100 text-blue-800 border-blue-200",
    "bg-green-100 text-green-800 border-green-200",
    "bg-yellow-100 text-yellow-800 border-yellow-200",
    "bg-purple-100 text-purple-800 border-purple-200",
    "bg-pink-100 text-pink-800 border-pink-200",
    "bg-indigo-100 text-indigo-800 border-indigo-200",
    "bg-orange-100 text-orange-800 border-orange-200"]

  /** The cap when the caller gives none. */
  const DefaultMaxTags := 10

  // ---- Adding ----

  /** `tag.trim().toLowerCase()`. */
  function Normalize(tag: string): string {
    ToLower(Trim(tag))
  }

  /** The guard of `addTag`, on the normalised tag. */
  predicate CanAdd(tags: seq<string>, t: string, maxTags: int) {
    t != "" && t !in tags && |tags| < maxTags
  }

  /** The list after `addTag(tag)`. */
  function Added(tags: seq<string>, tag: string, maxTags: int): seq<string> {
    var t := Normalize(tag);
    if CanAdd(tags, t, maxTags) then tags + [t] else tags
  }

  /** `addTag` appends the normalised tag exactly when it is non-empty, new
      and there is room; otherwise the list stays as it was. */
  lemma AddTagIff(tags: seq<string>, tag: string, maxTags: int)
    ensures Added(tags, tag, maxTags) != tags <==> CanAdd(tags, Normalize(tag), maxTags)
    ensures CanAdd(tags, Normalize(tag), maxTags) ==> Added(tags, tag, maxTags) == tags + [Normalize(tag)]
  {
    if CanAdd(tags, Normalize(tag), maxTags) {
      assert |Added(tags, tag, maxTags)| == |tags| + 1;
    }
  }

  /** A normal tag: no white space at either end and no upper-case letter. */
  predicate IsNormal(t: string) {
    Trim(t) == t && ToLower(t) == t
  }

  lemma LowerKeepsNonWhitespace(c: char)
    requires !IsWhitespace(c)
    ensures !IsWhitespace(LowerChar(c))
  {
  }

  /** Every tag `addTag` stores is trimmed and lower-case. */
  lemma NormalizeIsNormal(tag: string)
    ensures IsNormal(Normalize(tag))
  {
    var u := Trim(tag);
    var l := ToLower(u);
    ToLowerIdempotent(u);
    TrimSlice(tag);
    if |u| > 0 {
      LowerKeepsNonWhitespace(u[0]);
      LowerKeepsNonWhitespace(u[|u| - 1]);
      TrimNoop(l);
    }
  }

  // ---- The list invariant ----

  /** At most `maxTags` tags, all different. */
  predicate Good(tags: seq<string>, maxTags: int) {
    |tags| <= maxTags && NoDuplicates(tags)
  }

  lemma AddKeepsGood(tags: seq<string>, tag: string, maxTags: int)
    requires Good(tags, maxTags)
    ensures Good(Added(tags, tag, maxTags), maxTags)
  {
  }

  lemma RemoveKeepsGood(tags: seq<string>, t: string, maxTags: int)
    requires Good(tags, maxTags)
    ensures Good(Removed(tags, t), maxTags)
  {
    RemovedNoDuplicates(tags, t);
  }

  datatype TagAction = AddAction(input: string) | RemoveAction(tag: string)

  function Apply(tags: seq<string>, a: TagAction, maxTags: int): seq<string> {
    match a
    case AddAction(input) => Added(tags, input, maxTags)
    case RemoveAction(tag) => Removed(tags, tag)
  }

  function ApplyAll(tags: seq<string>, actions: seq<TagAction>, maxTags: int): seq<string>
    decreases |actions|
  {
    if |actions| == 0 then tags
    else ApplyAll(Apply(tags, actions[0], maxTags), actions[1..], maxTags)
  }

  /** Starting from at most `maxTags` distinct tags, any sequence of adds
      and removes keeps the list within the cap and free of duplicates. */
  lemma {:induction false} ActionsKeepGood(tags: seq<string>, actions: seq<TagAction>, maxTags: int)
    requires Good(tags, maxTags)
    ensures Good(ApplyAll(tags, actions, maxTags), maxTags)
    decreases |actions|
  {
    if |actions| > 0 {
      match actions[0] {
        case AddAction(input) => AddKeepsGood(tags, input, maxTags);
        case RemoveAction(tag) => RemoveKeepsGood(tags, tag, maxTags);
      }
      ActionsKeepGood(Apply(tags, actions[0], maxTags), actions[1..], maxTags);
    }
  }

  // ---- Colours ----

  /** The sum of the character codes. */
  function CodeSum(s: string): nat
    decreases |s|
  {
    if |s| == 0 then 0 else CodeSum(s[..|s| - 1]) + s[|s| - 1] as nat
  }

  lemma {:induction false} CodeSumAppend(a: string, b: string)
    ensures CodeSum(a + b) == CodeSum(a) + CodeSum(b)
    decreases |b|
  {
    if |b| == 0 {
      assert a + b == a;
    } else {
      assert (a + b)[..|a + b| - 1] == a + b[..|b| - 1];
      CodeSumAppend(a, b[..|b| - 1]);
    }
  }

  /** `getTagColor`: always one of the palette's eight entries. */
  function GetTagColor(tag: string): (r: string)
    ensures r in TagColors
  {
    TagColors[CodeSum(tag) % |TagColors|]
  }

  /** The colour depends only on the characters, not on their order: two
      halves swapped give the same colour. */
  lemma ColorIgnoresOrder(a: string, b: string)
    ensures GetTagColor(a + b) == GetTagColor(b + a)
  {
    CodeSumAppend(a, b);
    CodeSumAppend(b, a);
  }

  // ---- Quick add ----

  /** The predefined tags whose lower-case form is not yet a tag, in order. */
  function QuickAdd(tags: seq<string>, offered: seq<string>): (r: seq<string>)
    ensures |r| <= |offered|
    decreases |offered|
  {
    if |offered| == 0 then []
    else
      var rest := QuickAdd(tags, offered[..|offered| - 1]);
      var p := offered[|offered| - 1];
      if ToLower(p) !in tags then rest + [p] else rest
  }

  lemma {:induction false} QuickAddMembers(tags: seq<string>, offered: seq<string>, p: string)
    ensures p in QuickAdd(tags, offered) <==> p in offered && ToLower(p) !in tags
    decreases |offered|
  {
    if |offered| > 0 {
      var init := offered[..|offered| - 1];
      QuickAddMembers(tags, init, p);
      assert offered == init + [offered[|offered| - 1]];
    }
  }

  predicate IsAsciiLetter(c: char) {
    'A' <= c <= 'Z' || 'a' <= c <= 'z'
  }

  lemma LetterIsNotWhitespace(c: char)
    requires IsAsciiLetter(c)
    ensures !IsWhitespace(c)
  {
  }

  /** The predefined tags begin and end with a letter, so trimming keeps them. */
  lemma PredefinedTrimmed(i: nat)
    requires i < |PredefinedTags|
    ensures |PredefinedTags[i]| >= 2 && Trim(PredefinedTags[i]) == PredefinedTags[i]
  {
    var p := PredefinedTags[i];
    assert |p| >= 2 && IsAsciiLetter(p[0]) && IsAsciiLetter(p[|p| - 1]);
    LetterIsNotWhitespace(p[0]);
    LetterIsNotWhitespace(p[|p| - 1]);
    TrimNoop(p);
  }

  /** A predefined tag normalises to its lower-case form, which is not empty. */
  lemma PredefinedNormalize(p: string)
    requires p in PredefinedTags
    ensures Normalize(p) == ToLower(p) != ""
  {
    var i :| 0 <= i < |PredefinedTags| && PredefinedTags[i] == p;
    PredefinedTrimmed(i);
    assert |ToLower(p)| == |p| > 0;
  }

  /** A quick-add tag, clicked while there is room, is always added: its
      lower-case form is its normalised form and is not yet present. */
  lemma QuickAddAlwaysAdds(tags: seq<string>, p: string, maxTags: int)
    requires p in QuickAdd(tags, PredefinedTags) && |tags| < maxTags
    ensures Added(tags, p, maxTags) == tags + [ToLower(p)]
  {
    QuickAddMembers(tags, PredefinedTags, p);
    PredefinedNormalize(p);
    assert CanAdd(tags, Normalize(p), maxTags);
  }

  // ---- The component state ----

  class Editor {
    var tags: seq<string>
    var newTag: string
    const maxTags: int

    /** The props, each possibly left out: `existingTags` default to none
        and are taken as given, without normalising; `maxTags` defaults to
        `DefaultMaxTags`. */
    constructor (existingTags: Option<seq<string>>, maxTags: Option<int>)
      ensures tags == (if existingTags.Some? then existingTags.value else [])
      ensures maxTags.Some? ==> this.maxTags == maxTags.value
      ensures maxTags.None? ==> this.maxTags == DefaultMaxTags
      ensures newTag == ""
    {
      tags := if existingTags.Some? then existingTags.value else [];
      newTag := "";
      this.maxTags := if maxTags.Some? then maxTags.value else DefaultMaxTags;
    }

    /** `addTag`: returns the list handed to `onTagsChange`, when it is called. */
    method AddTag(tag: string) returns (notified: Option<seq<string>>)
      modifies this
      ensures tags == Added(old(tags), tag, maxTags)
      ensures CanAdd(old(tags), Normalize(tag), maxTags) ==> notified == Some(tags) && newTag == ""
      ensures !CanAdd(old(tags), Normalize(tag), maxTags) ==> notified == None && newTag == old(newTag)
    {
      var trimmedTag := ToLower(Trim(tag));
      if trimmedTag != "" && trimmedTag !in tags && |tags| < maxTags {
        tags := tags + [trimmedTag];
        notified := Some(tags);
        newTag := "";
      } else {
        notified := None;
      }
    }

    /** `removeTag`: always notifies. */
    method RemoveTag(tagToRemove: string) returns (notified: seq<string>)
      modifies this
      ensures tags == Removed(old(tags), tagToRemove) && notified == tags
      ensures newTag == old(newTag)
    {
      tags := Removed(tags, tagToRemove);
      notified := tags;
    }

    method SetNewTag(value: string)
      modifies this
      ensures newTag == value && tags == old(tags)
    {
      newTag := value;
    }

    /** `handleKeyPress`: Enter adds the typed tag; other keys do nothing. */
    method HandleKeyPress(key: string) returns (notified: Option<seq<string>>)
      modifies this
      ensures key == "Enter" ==> tags == Added(old(tags), old(newTag), maxTags)
      ensures key == "Enter" && CanAdd(old(tags), Normalize(old(newTag)), maxTags) ==>
        notified == Some(tags) && newTag == ""
      ensures key == "Enter" && !CanAdd(old(tags), Normalize(old(newTag)), maxTags) ==>
        notified == None && newTag == old(newTag)
      ensures key != "Enter" ==> tags == old(tags) && newTag == old(newTag) && notified == None
    {
      if key == "Enter" {
        notified := AddTag(newTag);
      } else {
        notified := None;
      }
    }
  }
}
