/** The "Add New Verse" form: a case-insensitive search over the built-in KJV table, picking a
    suggestion, switching translation, and the submission that hands a verse to the app. The
    table (reference, text) is a parameter, in the table's own order. */
module AddVerseModal {
  import opened Types
  import opened Seqs

  type Entry = (string, string)

  /** Most suggestions shown at once. */
  const MaxSuggestions: nat := 5

  /** ASCII lower-casing of one character; every other character is kept. */
  function LowerChar(c: char): (d: char)
    ensures !('A' <= d <= 'Z')
    ensures !('A' <= c <= 'Z') ==> d == c
    ensures 'A' <= c <= 'Z' ==> 'a' <= d <= 'z' && d as int - c as int == 'a' as int - 'A' as int
  {
    if 'A' <= c <= 'Z' then (c as int - 'A' as int + 'a' as int) as char else c
  }

  function Lower(s: string): (r: string)
    ensures |r| == |s|
    ensures forall i :: 0 <= i < |s| ==> r[i] == LowerChar(s[i])
    decreases |s|
  {
    if s == [] then [] else [LowerChar(s[0])] + Lower(s[1..])
  }

  /** Lower-casing twice is lower-casing once. */
  lemma LowerIdempotent(s: string)
    ensures Lower(Lower(s)) == Lower(s)
  {
    var l := Lower(s);
    assert forall i :: 0 <= i < |l| ==> Lower(l)[i] == l[i];
  }

  /** Lower-casing a prefix gives a prefix of the lower-cased sequence. */
  lemma LowerPrefix(s: string, t: string)
    requires t <= s
    ensures Lower(t) <= Lower(s)
  {
    assert forall i :: 0 <= i < |t| ==> Lower(t)[i] == Lower(s)[i];
  }

  /** A run that occurs in `s` still occurs once both are lower-cased. */
  lemma {:induction false} IncludesLower(s: string, t: string)
    requires Includes(s, t)
    ensures Includes(Lower(s), Lower(t))
    decreases |s|
  {
    if t <= s {
      LowerPrefix(s, t);
    } else {
      IncludesLower(s[1..], t);
      assert Lower(s)[1..] == Lower(s[1..]);
    }
  }

  /** An entry matches an already lower-cased term when its reference or its text contains it. */
  predicate Matches(e: Entry, searchLower: string) {
    Includes(Lower(e.0), searchLower) || Includes(Lower(e.1), searchLower)
  }

  /** The first five entries matching a lower-cased term, in table order. */
  function Search(table: seq<Entry>, searchLower: string): (r: seq<Entry>)
    ensures |r| <= MaxSuggestions
    ensures SubsequenceOf(r, table)
    ensures forall e :: e in r ==> e in table && Matches(e, searchLower)
    ensures |r| < MaxSuggestions ==> forall e :: e in table && Matches(e, searchLower) ==> e in r
    ensures r <= Filter(table, (e: Entry) => Matches(e, searchLower))
    ensures |r| == if |Filter(table, (e: Entry) => Matches(e, searchLower))| <= MaxSuggestions
                   then |Filter(table, (e: Entry) => Matches(e, searchLower))| else MaxSuggestions
  {
    var all := Filter(table, (e: Entry) => Matches(e, searchLower));
    var r := Take(all, MaxSuggestions);
    assert r == all[..|r|];
    PrefixOfSubsequence(all, table, |r|);
    r
  }

  /** The suggestions for what has been typed: none for an empty box, otherwise at most five
      entries whose reference or text contains the typed term, ignoring ASCII case. */
  function FilteredVerses(table: seq<Entry>, searchTerm: string): (r: seq<Entry>)
    ensures searchTerm == [] ==> r == []
    ensures |r| <= MaxSuggestions
    ensures SubsequenceOf(r, table)
    ensures forall e :: e in r ==> Includes(Lower(e.0), Lower(searchTerm)) || Includes(Lower(e.1), Lower(searchTerm))
    ensures searchTerm != [] && |r| < MaxSuggestions ==>
              forall e :: e in table && Matches(e, Lower(searchTerm)) ==> e in r
    ensures searchTerm != [] ==> r <= Filter(table, (e: Entry) => Matches(e, Lower(searchTerm)))
    ensures searchTerm != [] ==>
              |r| == if |Filter(table, (e: Entry) => Matches(e, Lower(searchTerm)))| <= MaxSuggestions
                     then |Filter(table, (e: Entry) => Matches(e, Lower(searchTerm)))| else MaxSuggestions
  {
    if searchTerm == [] then [] else Search(table, Lower(searchTerm))
  }

  /** Terms that differ only in ASCII case give the same suggestions. */
  lemma SearchIgnoresCase(table: seq<Entry>, a: string, b: string)
    requires Lower(a) == Lower(b)
    ensures FilteredVerses(table, a) == FilteredVerses(table, b)
  {
    assert |a| == |Lower(a)| == |Lower(b)| == |b|;
  }

  /** An entry containing the typed term exactly, in its reference or its text, is a match. */
  lemma ExactContainmentMatches(e: Entry, searchTerm: string)
    requires Includes(e.0, searchTerm) || Includes(e.1, searchTerm)
    ensures Matches(e, Lower(searchTerm))
  {
    if Includes(e.0, searchTerm) {
      IncludesLower(e.0, searchTerm);
    } else {
      IncludesLower(e.1, searchTerm);
    }
  }

  /** Once a suggestion has been picked, the search box holds its reference, so the suggestion
      list is not empty. */
  lemma PickedReferenceIsFound(table: seq<Entry>, e: Entry)
    requires e in table && e.0 != []
    ensures FilteredVerses(table, e.0) != []
  {
    assert Includes(e.0, e.0);
    ExactContainmentMatches(e, e.0);
    var all := Filter(table, (x: Entry) => Matches(x, Lower(e.0)));
    assert e in all;
  }

  /** The text stored under `key` in the table (its first entry with that reference). */
  function Lookup(table: seq<Entry>, key: string): (r: Option<string>)
    ensures r.None? <==> forall e :: e in table ==> e.0 != key
    ensures r.Some? ==> (key, r.value) in table
    decreases |table|
  {
    if table == [] then None
    else if table[0].0 == key then Some(table[0].1)
    else Lookup(table[1..], key)
  }

  predicate HasKey(table: seq<Entry>, key: string) {
    exists e :: e in table && e.0 == key
  }

  function TextOf(table: seq<Entry>, key: string): (t: string)
    requires HasKey(table, key)
    ensures (key, t) in table
  {
    Lookup(table, key).value
  }

  /** The form's fields. `selectedReference` is empty or a reference of the table. */
  datatype Form = Form(searchTerm: string, selectedReference: string, customText: string,
                       translation: BibleTranslation, isCustomVerse: bool)

  /** What the form's handlers keep true: a selected reference is one of the table's, and away
      from KJV the text is always typed by hand (the custom box can only be changed under KJV). */
  predicate Consistent(f: Form, table: seq<Entry>) {
    && (f.selectedReference == [] || HasKey(table, f.selectedReference))
    && (f.translation != KJV ==> f.isCustomVerse)
  }

  /** The empty form the modal opens with. */
  function InitialForm(): (f: Form)
    ensures forall table :: Consistent(f, table)
    ensures f.translation == KJV && !f.isCustomVerse
    ensures f.searchTerm == [] && f.selectedReference == [] && f.customText == []
  {
    Form([], [], [], KJV, false)
  }

  /** Picking a suggestion: the reference fills the search box and becomes the selection; under
      KJV its table text fills the text box, otherwise the typed text is kept. */
  function SelectVerse(f: Form, table: seq<Entry>, reference: string): (r: Form)
    requires HasKey(table, reference)
    ensures r.selectedReference == reference && r.searchTerm == reference
    ensures r.translation == f.translation && r.isCustomVerse == f.isCustomVerse
    ensures f.translation == KJV ==> (reference, r.customText) in table
    ensures f.translation != KJV ==> r.customText == f.customText
    ensures Consistent(f, table) ==> Consistent(r, table)
  {
    f.(selectedReference := reference, searchTerm := reference,
       customText := if f.translation == KJV then TextOf(table, reference) else f.customText)
  }

  /** Switching translation: away from KJV the form goes to hand-typed text and clears it; back
      to KJV with a selection it returns to the table text; back to KJV without a selection only
      the translation changes. */
  function ChangeTranslation(f: Form, table: seq<Entry>, t: BibleTranslation): (r: Form)
    requires f.selectedReference == [] || HasKey(table, f.selectedReference)
    ensures r.translation == t
    ensures r.searchTerm == f.searchTerm && r.selectedReference == f.selectedReference
    ensures t != KJV ==> r.isCustomVerse && r.customText == []
    ensures t == KJV && f.selectedReference != [] ==>
              !r.isCustomVerse && (f.selectedReference, r.customText) in table
    ensures t == KJV && f.selectedReference == [] ==> r == f.(translation := KJV)
    ensures Consistent(f, table) ==> Consistent(r, table)
  {
    if t != KJV then f.(translation := t, isCustomVerse := true, customText := [])
    else if f.selectedReference != [] then
      f.(translation := t, isCustomVerse := false, customText := TextOf(table, f.selectedReference))
    else f.(translation := t)
  }

  /** The reference a submission uses: the typed one for a custom verse, else the selection. */
  function SubmittedReference(f: Form): (r: string)
    ensures f.isCustomVerse ==> r == f.searchTerm
    ensures !f.isCustomVerse ==> r == f.selectedReference
  {
    if f.isCustomVerse then f.searchTerm else f.selectedReference
  }

  /** The text a submission uses: the typed one for a custom verse or a non-KJV translation,
      else the table's text for the selection (absent when nothing is selected). */
  function SubmittedText(f: Form, table: seq<Entry>): (r: Option<string>)
    ensures f.isCustomVerse || f.translation != KJV ==> r == Some(f.customText)
    ensures !f.isCustomVerse && f.translation == KJV ==>
              (r.None? <==> !HasKey(table, f.selectedReference)) &&
              (r.Some? ==> (f.selectedReference, r.value) in table)
  {
    if f.isCustomVerse || f.translation != KJV then Some(f.customText)
    else Lookup(table, f.selectedReference)
  }

  /** Submitting: a verse is handed on only when both its reference and its text are non-empty. */
  function Submit(f: Form, table: seq<Entry>): (r: Option<VerseData>)
    ensures r.Some? ==> r.value.reference != [] && r.value.text != [] && r.value.translation == f.translation
    ensures f.isCustomVerse ==>
              (r.Some? <==> f.searchTerm != [] && f.customText != []) &&
              (r.Some? ==> r.value.reference == f.searchTerm && r.value.text == f.customText)
    ensures !f.isCustomVerse && f.translation == KJV ==>
              (r.Some? <==> f.selectedReference != [] && HasKey(table, f.selectedReference) &&
                            TextOf(table, f.selectedReference) != []) &&
              (r.Some? ==> r.value.reference == f.selectedReference && (r.value.reference, r.value.text) in table)
  {
    var reference := SubmittedReference(f);
    var text := SubmittedText(f, table);
    if reference != [] && text.Some? && text.value != [] then Some(VerseData(reference, text.value, f.translation))
    else None
  }

  /** The browser's own check before the submit handler runs: the reference box and the text
      box are both marked required, so nothing is submitted while either is empty. */
  predicate PassesRequiredFields(f: Form) {
    f.searchTerm != [] && f.customText != []
  }

  /** Pressing "Add Verse": nothing while a required box is empty, otherwise the submit rule. */
  function SubmitForm(f: Form, table: seq<Entry>): (r: Option<VerseData>)
    ensures r.Some? ==> f.searchTerm != [] && f.customText != []
    ensures r.Some? ==> r.value.reference != [] && r.value.text != [] && r.value.translation == f.translation
    ensures PassesRequiredFields(f) ==> r == Submit(f, table)
    ensures f.isCustomVerse ==>
              (r.Some? <==> f.searchTerm != [] && f.customText != []) &&
              (r.Some? ==> r.value == VerseData(f.searchTerm, f.customText, f.translation))
    ensures !f.isCustomVerse && f.translation == KJV && r.Some? ==>
              r.value.reference == f.selectedReference && (r.value.reference, r.value.text) in table
  {
    if PassesRequiredFields(f) then Submit(f, table) else None
  }

  /** Emptying the reference box blocks the submission, whatever else the form holds. */
  lemma ClearedReferenceBoxBlocksSubmission(f: Form, table: seq<Entry>)
    ensures SubmitForm(f.(searchTerm := []), table).None?
  {
  }

  /** Picking a suggestion under KJV, outside custom mode, and submitting hands on exactly that
      table entry. */
  lemma SelectThenSubmit(f: Form, table: seq<Entry>, reference: string)
    requires HasKey(table, reference) && reference != []
    requires f.translation == KJV && !f.isCustomVerse
    requires TextOf(table, reference) != []
    ensures SubmitForm(SelectVerse(f, table, reference), table) == Some(VerseData(reference, TextOf(table, reference), KJV))
  {
  }

  /** Outside custom mode, retyping the search box after a selection does not change what is
      submitted as long as the box is not emptied: the selection, not the box, supplies the
      reference. */
  lemma SubmitIgnoresSearchBoxOutsideCustomMode(f: Form, table: seq<Entry>, typed: string)
    requires !f.isCustomVerse
    requires typed != [] && f.searchTerm != []
    ensures Submit(f.(searchTerm := typed), table) == Submit(f, table)
    ensures SubmitForm(f.(searchTerm := typed), table) == SubmitForm(f, table)
  {
  }

  /** Under KJV outside custom mode, editing the text box (without emptying it) does not change
      what is submitted: the table's text is handed on, not the box's. */
  lemma TableModeIgnoresEditedText(f: Form, table: seq<Entry>, edited: string)
    requires !f.isCustomVerse && f.translation == KJV
    requires edited != [] && f.customText != []
    ensures SubmitForm(f.(customText := edited), table) == SubmitForm(f, table)
  {
  }

  /** Leaving KJV for another translation and coming back, with a verse selected, restores the
      selected verse's table text and leaves custom mode. */
  lemma TranslationRoundTrip(f: Form, table: seq<Entry>, t: BibleTranslation)
    requires Consistent(f, table) && f.selectedReference != []
    ensures var back := ChangeTranslation(ChangeTranslation(f, table, t), table, KJV);
            back.translation == KJV && !back.isCustomVerse &&
            back.customText == TextOf(table, f.selectedReference) &&
            back.selectedReference == f.selectedReference && back.searchTerm == f.searchTerm
  {
  }

  /** The form as the modal holds it. */
  class AddVerseForm {
    const table: seq<Entry>
    var searchTerm: string
    var selectedReference: string
    var customText: string
    var translation: BibleTranslation
    var isCustomVerse: bool

    function Snapshot(): (f: Form)
      reads this
      ensures f.translation == translation && f.isCustomVerse == isCustomVerse
      ensures f.searchTerm == searchTerm && f.selectedReference == selectedReference && f.customText == customText
    {
      Form(searchTerm, selectedReference, customText, translation, isCustomVerse)
    }

    ghost predicate Valid()
      reads this
    {
      Consistent(Snapshot(), table)
    }

    constructor (table: seq<Entry>)
      ensures Valid() && this.table == table
      ensures Snapshot() == InitialForm()
    {
      this.table := table;
      searchTerm := [];
      selectedReference := [];
      customText := [];
      translation := KJV;
      isCustomVerse := false;
    }

    /** The suggestion list under the search box: shown only under KJV. */
    function VisibleSuggestions(): (r: seq<Entry>)
      reads this
      ensures translation != KJV ==> r == []
      ensures translation == KJV ==> r == FilteredVerses(table, searchTerm)
      ensures |r| <= MaxSuggestions
    {
      if translation == KJV then FilteredVerses(table, searchTerm) else []
    }

    method SetSearchTerm(s: string)
      requires Valid()
      modifies this
      ensures Valid() && Snapshot() == old(Snapshot()).(searchTerm := s)
    {
      searchTerm := s;
    }

    method SetCustomText(s: string)
      requires Valid()
      modifies this
      ensures Valid() && Snapshot() == old(Snapshot()).(customText := s)
    {
      customText := s;
    }

    /** The "custom KJV verse text" checkbox, present only under KJV. */
    method SetCustomVerse(checked: bool)
      requires Valid() && translation == KJV
      modifies this
      ensures Valid() && Snapshot() == old(Snapshot()).(isCustomVerse := checked)
    {
      isCustomVerse := checked;
    }

    method HandleVerseSelect(reference: string)
      requires Valid() && HasKey(table, reference)
      modifies this
      ensures Valid() && Snapshot() == SelectVerse(old(Snapshot()), table, reference)
    {
      selectedReference := reference;
      searchTerm := reference;
      if translation == KJV {
        customText := TextOf(table, reference);
      }
    }

    method HandleTranslationChange(t: BibleTranslation)
      requires Valid()
      modifies this
      ensures Valid() && Snapshot() == ChangeTranslation(old(Snapshot()), table, t)
    {
      translation := t;
      if t != KJV {
        isCustomVerse := true;
        customText := [];
      } else if selectedReference != [] {
        isCustomVerse := false;
        customText := TextOf(table, selectedReference);
      }
    }

    /** The verse handed to the app, if any; the form itself is left as it is. */
    method HandleSubmit() returns (emitted: Option<VerseData>)
      requires Valid()
      ensures emitted == SubmitForm(Snapshot(), table)
      ensures emitted.Some? ==> emitted.value.translation == translation
      ensures emitted.Some? && !isCustomVerse ==> (emitted.value.reference, emitted.value.text) in table
    {
      emitted := SubmitForm(Snapshot(), table);
    }
  }
}
