/**
 * GetTypeFromString: free text to a tablature type by case-insensitive
 * substring search, "bass" first, then "chords", then "tabs". The search
 * engine and the parser each carry an identical private copy; this is the one
 * definition both modules of this model use.
 */
module Classifier {
  import opened Wrappers
  import opened Text
  import opened Tablature

  function GetTypeFromString(s: string): (t: Option<TablatureType>)
    ensures t == Some(Bass) <==> Occurs(s, "bass")
    ensures t == Some(Chords) <==> !Occurs(s, "bass") && Occurs(s, "chords")
    ensures t == Some(Guitar) <==> !Occurs(s, "bass") && !Occurs(s, "chords") && Occurs(s, "tabs")
    ensures t.None? <==> !Occurs(s, "bass") && !Occurs(s, "chords") && !Occurs(s, "tabs")
  {
    if IndexOfIgnoreCase(s, "bass") >= 0 then Some(Bass)
    else if IndexOfIgnoreCase(s, "chords") >= 0 then Some(Chords)
    else if IndexOfIgnoreCase(s, "tabs") >= 0 then Some(Guitar)
    else None
  }

  /** The classification never yields a type outside the three of the site. */
  lemma ClassifiedTypeIsSiteType(s: string)
    requires GetTypeFromString(s).Some?
    ensures GetTypeFromString(s).value in {Guitar, Chords, Bass}
  {
  }

  /** "bass" wins whatever text surrounds it, even text with "chords" or "tabs". */
  lemma BassWins(a: string, b: string)
    ensures GetTypeFromString(a + "bass" + b) == Some(Bass)
  {
    assert OccursAt("bass", "bass", 0);
    OccursInContext(a, "bass", b, "bass");
  }

  /** Without "bass", "chords" wins over "tabs". */
  lemma ChordsBeforeTabs(a: string, b: string)
    requires !Occurs(a + "chords" + b, "bass")
    ensures GetTypeFromString(a + "chords" + b) == Some(Chords)
  {
    assert OccursAt("chords", "chords", 0);
    OccursInContext(a, "chords", b, "chords");
  }

  /** The case of the text does not matter. */
  lemma CaseInsensitive(s: string)
    ensures GetTypeFromString(LowerAll(s)) == GetTypeFromString(s)
  {
    OccursLowerAll(s, "bass");
    OccursLowerAll(s, "chords");
    OccursLowerAll(s, "tabs");
  }

  /** The empty label, the value of an unmatched regex group, has no type. */
  lemma EmptyLabelUnclassified()
    ensures GetTypeFromString("") == None
  {
  }

  /** A pattern whose first letter is at no position where it could start
      does not occur in s. */
  lemma AbsentFirstLetter(s: string, p: string)
    requires |p| > 0
    requires forall k :: 0 <= k <= |s| - |p| ==> ToLower(s[k]) != ToLower(p[0])
    ensures !Occurs(s, p)
  {
    forall i ensures !OccursAt(s, p, i) {
      if 0 <= i && i + |p| <= |s| {
        assert ToLower(s[i..i + |p|][0]) != ToLower(p[0]);
      }
    }
  }

  /** Labels as the site writes them. */
  lemma BassTabsLabel()
    ensures GetTypeFromString("Bass Tabs") == Some(Bass)
  {
    assert OccursAt("Bass Tabs", "bass", 0);
  }

  lemma ChordsLabel()
    ensures GetTypeFromString("Chords") == Some(Chords)
  {
    var c := "Chords";
    assert forall k :: 0 <= k < |c| ==> ToLower(c[k]) in {'c', 'h', 'o', 'r', 'd', 's'};
    AbsentFirstLetter(c, "bass");
    assert OccursAt(c, "chords", 0);
  }

  lemma GuitarTabsLabel()
    ensures GetTypeFromString("Guitar Tabs") == Some(Guitar)
  {
    var g := "Guitar Tabs";
    assert forall k :: 0 <= k <= 7 ==> ToLower(g[k]) in {'g', 'u', 'i', 't', 'a', 'r', ' '};
    AbsentFirstLetter(g, "bass");
    AbsentFirstLetter(g, "chords");
    assert OccursAt(g, "tabs", 7);
  }

  lemma UnknownLabel()
    ensures GetTypeFromString("Ukulele") == None
  {
    var u := "Ukulele";
    assert forall k :: 0 <= k < |u| ==> ToLower(u[k]) in {'u', 'k', 'l', 'e'};
    AbsentFirstLetter(u, "bass");
    AbsentFirstLetter(u, "chords");
    AbsentFirstLetter(u, "tabs");
  }
}
