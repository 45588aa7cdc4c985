/** The per-item enrichment steps of ingest: IPTC subject expansion, ANPA
    category normalisation, derivation of a category from the subjects or of
    a subject from the categories, and the rule-set text substitution.  The
    item is a `class` because every step changes it in place. */
module IngestItem {
  import opened Base

  /** One `subject` entry; `qcode` and `name` are keys that may be missing. */
  datatype Subject = Subject(qcode: Option<string>, name: Option<string>)

  /** One `anpa_category` entry. */
  datatype Category = Category(qcode: Option<string>, name: Option<string>)

  /** An item of the "categories" vocabulary. */
  datatype VocabularyEntry = VocabularyEntry(qcode: string, name: string, isActive: bool, subject: Option<string>)

  /** An item of the "iptc_category_map" vocabulary: an IPTC subject code and
      the ANPA category it maps to. */
  datatype MapEntry = MapEntry(qcode: string, category: string, isActive: bool)

  /** A replacement rule of a rule set. */
  datatype Rule = Rule(pattern: string, replacement: string)

  // ---------------------------------------------------------------------
  // IPTC subject codes

  /** An eight-digit IPTC subject code. */
  predicate IsIptcCode(c: string) {
    |c| == 8 && forall k :: 0 <= k < 8 ==> '0' <= c[k] <= '9'
  }

  /** The top-level code of a subject: its first two digits, then zeros. */
  function TopCode(c: string): string
    requires |c| >= 2
  {
    c[..2] + "000000"
  }

  /** The mid-level code of a subject: its first five digits, then zeros. */
  function MidCode(c: string): string
    requires |c| >= 5
  {
    c[..5] + "000"
  }

  /** The qcodes present in a subject list. */
  function Codes(s: seq<Subject>): set<string> {
    if s == [] then {}
    else Codes(s[..|s| - 1]) + (if s[|s| - 1].qcode.Some? then {s[|s| - 1].qcode.value} else {})
  }

  lemma {:induction false} CodesMembership(s: seq<Subject>, c: string)
    ensures c in Codes(s) <==> exists k :: 0 <= k < |s| && s[k].qcode == Some(c)
  {
    if s != [] {
      var init := s[..|s| - 1];
      CodesMembership(init, c);
      if c in Codes(init) {
        var k :| 0 <= k < |init| && init[k].qcode == Some(c);
        assert s[k] == init[k];
      }
      if exists k :: 0 <= k < |s| && s[k].qcode == Some(c) {
        var k :| 0 <= k < |s| && s[k].qcode == Some(c);
        if k < |init| { assert init[k] == s[k]; }
      }
    }
  }

  /** A subject whose code is an IPTC code has its top- and mid-level codes
      among `codes`. */
  predicate Expanded(e: Subject, codes: set<string>) {
    e.qcode.Some? && IsIptcCode(e.qcode.value) ==>
      TopCode(e.qcode.value) in codes && MidCode(e.qcode.value) in codes
  }

  /** The codes the expansion inserts are themselves expanded once present. */
  lemma ParentCodes(c: string)
    requires IsIptcCode(c)
    ensures IsIptcCode(TopCode(c)) && IsIptcCode(MidCode(c))
    ensures TopCode(TopCode(c)) == TopCode(c) && MidCode(TopCode(c)) == TopCode(c)
    ensures TopCode(MidCode(c)) == TopCode(c) && MidCode(MidCode(c)) == MidCode(c)
  {
  }

  // ---------------------------------------------------------------------
  // ANPA categories

  /** The active vocabulary entries whose qcode matches `q` ignoring case. */
  function Matching(vocab: seq<VocabularyEntry>, q: string): (m: seq<VocabularyEntry>)
    ensures forall v :: v in m ==> v in vocab && v.isActive && Lower(v.qcode) == Lower(q)
    ensures m == [] <==> forall v :: v in vocab ==> !(v.isActive && Lower(v.qcode) == Lower(q))
  {
    if vocab == [] then []
    else if vocab[0].isActive && Lower(q) == Lower(vocab[0].qcode) then [vocab[0]] + Matching(vocab[1..], q)
    else Matching(vocab[1..], q)
  }

  /** `list.remove(x)`: drop the first element equal to `x`. */
  function RemoveFirst<T(==)>(s: seq<T>, x: T): (r: seq<T>)
    requires x in s
    ensures |r| == |s| - 1
    ensures multiset(r) == multiset(s) - multiset{x}
  {
    assert s == [s[0]] + s[1..];
    if s[0] == x then s[1..] else [s[0]] + RemoveFirst(s[1..], x)
  }

  /** A category rewritten with the name and the qcode spelling of the vocabulary. */
  function Normalised(v: VocabularyEntry): Category {
    Category(Some(v.qcode), Some(v.name))
  }

  datatype AnpaOutcome = AnpaOutcome(cats: seq<Category>, ok: bool)

  /** Some vocabulary entry is active. */
  function HasActive(vocab: seq<VocabularyEntry>): (b: bool)
    ensures b <==> exists v :: v in vocab && v.isActive
  {
    if vocab == [] then false
    else if vocab[0].isActive then true
    else
      assert forall v :: v in vocab ==> v == vocab[0] || v in vocab[1..];
      HasActive(vocab[1..])
  }

  /** The category loop as written: position `i` of the list is visited next.
      An unknown category is removed while the list is being iterated, so the
      category after it moves into the visited position and is skipped.  The
      match tests `is_active` before it reads the category's qcode, so a
      category without a qcode raises, leaving the changes made so far, only
      when some entry is active; otherwise it matches nothing and is removed. */
  function AnpaPass(cats: seq<Category>, vocab: seq<VocabularyEntry>, i: nat): AnpaOutcome
    decreases |cats| - i
  {
    if i >= |cats| then AnpaOutcome(cats, true)
    else if cats[i].qcode.None? && HasActive(vocab) then AnpaOutcome(cats, false)
    else
      var m := if cats[i].qcode.Some? then Matching(vocab, cats[i].qcode.value) else [];
      if m == [] then AnpaPass(RemoveFirst(cats, cats[i]), vocab, i + 1)
      else AnpaPass(cats[i := Normalised(m[0])], vocab, i + 1)
  }

  /** The loop raises only on a category without a qcode, and only when the
      vocabulary has an active entry: without one it never raises. */
  lemma {:induction false} AnpaPassRaises(cats: seq<Category>, vocab: seq<VocabularyEntry>, i: nat)
    ensures !AnpaPass(cats, vocab, i).ok ==>
      HasActive(vocab) && exists c :: c in AnpaPass(cats, vocab, i).cats && c.qcode.None?
    decreases |cats| - i
  {
    if i < |cats| && !(cats[i].qcode.None? && HasActive(vocab)) {
      var m := if cats[i].qcode.Some? then Matching(vocab, cats[i].qcode.value) else [];
      if m == [] {
        AnpaPassRaises(RemoveFirst(cats, cats[i]), vocab, i + 1);
      } else {
        AnpaPassRaises(cats[i := Normalised(m[0])], vocab, i + 1);
      }
    }
  }

  /** A category without a qcode: removed when no entry is active, a raise
      otherwise. */
  lemma QcodeLessCategory()
    ensures AnpaPass([Category(None, None)], [], 0) == AnpaOutcome([], true)
    ensures AnpaPass([Category(None, None)], [VocabularyEntry("A", "a", false, None)], 0) == AnpaOutcome([], true)
    ensures AnpaPass([Category(None, None)], [VocabularyEntry("A", "a", true, None)], 0) == AnpaOutcome([Category(None, None)], false)
  {
    var c := Category(None, None);
    assert RemoveFirst([c], c) == [];
    assert HasActive([VocabularyEntry("A", "a", true, None)]);
    assert !HasActive([VocabularyEntry("A", "a", false, None)]) by {
      assert !HasActive([VocabularyEntry("A", "a", false, None)][1..]);
    }
  }

  /** A category the vocabulary knows. */
  predicate Known(c: Category, vocab: seq<VocabularyEntry>) {
    c.qcode.Some? && Matching(vocab, c.qcode.value) != []
  }

  /** The normalisation the loop is meant to perform: every category without
      a qcode or unknown to the vocabulary is dropped, every other one takes
      the name and qcode of its first matching entry, order kept. */
  function NormaliseCategories(cats: seq<Category>, vocab: seq<VocabularyEntry>): seq<Category> {
    if cats == [] then []
    else if Known(cats[0], vocab) then
      [Normalised(Matching(vocab, cats[0].qcode.value)[0])] + NormaliseCategories(cats[1..], vocab)
    else NormaliseCategories(cats[1..], vocab)
  }

  /** Every category of the normalised list carries the qcode and name of an
      active vocabulary entry, and every known input category is represented. */
  lemma {:induction false} NormaliseCategoriesSpec(cats: seq<Category>, vocab: seq<VocabularyEntry>)
    ensures forall c :: c in NormaliseCategories(cats, vocab) ==>
      exists v :: v in vocab && v.isActive && c == Normalised(v)
    ensures forall x :: x in cats && Known(x, vocab) ==>
      Normalised(Matching(vocab, x.qcode.value)[0]) in NormaliseCategories(cats, vocab)
    ensures |NormaliseCategories(cats, vocab)| <= |cats|
  {
    if cats != [] {
      NormaliseCategoriesSpec(cats[1..], vocab);
      if Known(cats[0], vocab) {
        var v := Matching(vocab, cats[0].qcode.value)[0];
        assert v in Matching(vocab, cats[0].qcode.value);
      }
      forall x | x in cats && Known(x, vocab)
        ensures Normalised(Matching(vocab, x.qcode.value)[0]) in NormaliseCategories(cats, vocab)
      {
        if x != cats[0] {
          assert x in cats[1..];
        }
      }
    }
  }

  /** Order is kept: normalising a concatenation normalises each part in
      place, and a single category becomes its normalised self when known
      and nothing otherwise. */
  lemma {:induction false} NormaliseCategoriesAppend(a: seq<Category>, b: seq<Category>, vocab: seq<VocabularyEntry>)
    ensures NormaliseCategories(a + b, vocab) == NormaliseCategories(a, vocab) + NormaliseCategories(b, vocab)
    ensures forall c :: NormaliseCategories([c], vocab) ==
                        (if Known(c, vocab) then [Normalised(Matching(vocab, c.qcode.value)[0])] else [])
  {
    if a != [] {
      NormaliseCategoriesAppend(a[1..], b, vocab);
      assert (a + b)[1..] == a[1..] + b;
    } else {
      assert a + b == b;
    }
    forall c
      ensures NormaliseCategories([c], vocab) ==
              (if Known(c, vocab) then [Normalised(Matching(vocab, c.qcode.value)[0])] else [])
    {
      assert [c][1..] == [];
    }
  }

  /** When every category is known nothing is removed, and the loop as written
      performs the intended normalisation. */
  lemma {:induction false} AnpaPassAllKnown(cats: seq<Category>, vocab: seq<VocabularyEntry>, i: nat)
    requires i <= |cats|
    requires forall k :: i <= k < |cats| ==> Known(cats[k], vocab)
    ensures AnpaPass(cats, vocab, i) == AnpaOutcome(cats[..i] + NormaliseCategories(cats[i..], vocab), true)
    decreases |cats| - i
  {
    if i == |cats| {
      assert cats[..i] == cats;
    } else {
      var c' := cats[i := Normalised(Matching(vocab, cats[i].qcode.value)[0])];
      assert AnpaPass(cats, vocab, i) == AnpaPass(c', vocab, i + 1);
      AnpaPassAllKnown(c', vocab, i + 1);
      NormaliseOneMore(cats, vocab, i);
    }
  }

  /** Normalising the category at `i` in place moves it from the part still
      to be normalised to the part already done. */
  lemma NormaliseOneMore(cats: seq<Category>, vocab: seq<VocabularyEntry>, i: nat)
    requires i < |cats| && Known(cats[i], vocab)
    ensures var c' := cats[i := Normalised(Matching(vocab, cats[i].qcode.value)[0])];
      c'[..i + 1] + NormaliseCategories(c'[i + 1..], vocab) == cats[..i] + NormaliseCategories(cats[i..], vocab)
  {
    var n := Normalised(Matching(vocab, cats[i].qcode.value)[0]);
    var c' := cats[i := n];
    var rest := NormaliseCategories(cats[i + 1..], vocab);
    calc {
      c'[..i + 1] + NormaliseCategories(c'[i + 1..], vocab);
      { assert c'[i + 1..] == cats[i + 1..]; assert c'[..i + 1] == cats[..i] + [n]; }
      (cats[..i] + [n]) + rest;
      cats[..i] + ([n] + rest);
      { assert cats[i..][0] == cats[i] && cats[i..][1..] == cats[i + 1..]; }
      cats[..i] + NormaliseCategories(cats[i..], vocab);
    }
  }

  /** Two unknown categories in a row: the second is never looked at and
      survives, un-normalised. */
  lemma AnpaPassSkipsAfterRemoval()
    ensures var a := Category(Some("x"), None);
      var b := Category(Some("y"), None);
      && AnpaPass([a, b], [], 0) == AnpaOutcome([b], true)
      && NormaliseCategories([a, b], []) == []
  {
    var a := Category(Some("x"), None);
    var b := Category(Some("y"), None);
    assert Matching([], "x") == [];
    assert RemoveFirst([a, b], a) == [b];
    assert AnpaPass([a, b], [], 0) == AnpaPass([b], [], 1);
    assert AnpaPass([b], [], 1) == AnpaOutcome([b], true);
    assert [a, b][1..] == [b] && [b][1..] == [];
    assert !Known(a, []) && !Known(b, []);
    assert NormaliseCategories([b], []) == NormaliseCategories([], []) == [];
    assert NormaliseCategories([a, b], []) == NormaliseCategories([b], []);
  }

  // ---------------------------------------------------------------------
  // Category derived from the subjects

  /** The inner loop of `derive_category` for one active map entry `e`: each
      subject is compared with the entry, and the entry's category is added
      once.  A subject without a qcode raises (`None`). */
  function ScanSubjects(acc: seq<string>, e: MapEntry, subjects: seq<Subject>): Option<seq<string>> {
    if subjects == [] then Some(acc)
    else match ScanSubjects(acc, e, subjects[..|subjects| - 1])
      case None => None
      case Some(a) =>
        var s := subjects[|subjects| - 1];
        if s.qcode.None? then None
        else if s.qcode.value == e.qcode && e.category !in a then Some(a + [e.category])
        else Some(a)
  }

  /** The categories `derive_category` collects over the map entries in order. */
  function DerivedCategories(entries: seq<MapEntry>, subjects: seq<Subject>): Option<seq<string>> {
    if entries == [] then Some([])
    else match DerivedCategories(entries[..|entries| - 1], subjects)
      case None => None
      case Some(acc) =>
        var e := entries[|entries| - 1];
        if !e.isActive then Some(acc) else ScanSubjects(acc, e, subjects)
  }

  lemma {:induction false} ScanSubjectsNonePersists(acc: seq<string>, e: MapEntry, subjects: seq<Subject>, n: nat)
    requires n <= |subjects| && ScanSubjects(acc, e, subjects[..n]).None?
    ensures ScanSubjects(acc, e, subjects).None?
    decreases |subjects| - n
  {
    if n < |subjects| {
      assert subjects[..n + 1][..n] == subjects[..n];
      ScanSubjectsNonePersists(acc, e, subjects, n + 1);
    } else {
      assert subjects[..n] == subjects;
    }
  }

  predicate Matches(e: MapEntry, subjects: seq<Subject>) {
    exists j :: 0 <= j < |subjects| && subjects[j].qcode == Some(e.qcode)
  }

  predicate AllHaveQcode(subjects: seq<Subject>) {
    forall j :: 0 <= j < |subjects| ==> subjects[j].qcode.Some?
  }

  lemma {:induction false} ScanSubjectsSpec(acc: seq<string>, e: MapEntry, subjects: seq<Subject>)
    ensures ScanSubjects(acc, e, subjects).None? <==> !AllHaveQcode(subjects)
    ensures ScanSubjects(acc, e, subjects).Some? ==>
      ScanSubjects(acc, e, subjects).value ==
        if Matches(e, subjects) && e.category !in acc then acc + [e.category] else acc
  {
    if subjects != [] {
      var init := subjects[..|subjects| - 1];
      var s := subjects[|subjects| - 1];
      ScanSubjectsSpec(acc, e, init);
      assert forall j :: 0 <= j < |init| ==> init[j] == subjects[j];
      if !AllHaveQcode(init) {
        var j :| 0 <= j < |init| && init[j].qcode.None?;
        assert subjects[j].qcode.None?;
      }
      if Matches(e, subjects) && !Matches(e, init) {
        var j :| 0 <= j < |subjects| && subjects[j].qcode == Some(e.qcode);
        assert j == |subjects| - 1;
      }
      if Matches(e, init) {
        var j :| 0 <= j < |init| && init[j].qcode == Some(e.qcode);
        assert subjects[j].qcode == Some(e.qcode);
      }
    }
  }

  predicate AnyActive(entries: seq<MapEntry>) {
    exists i :: 0 <= i < |entries| && entries[i].isActive
  }

  /** The map is read to the end: the derivation fails exactly when a subject
      lacks a qcode and some entry is active, and otherwise collects, without
      repetition, exactly the categories of the active entries matching a
      subject. */
  lemma {:induction false} DerivedCategoriesSpec(entries: seq<MapEntry>, subjects: seq<Subject>)
    ensures DerivedCategories(entries, subjects).None? <==> AnyActive(entries) && !AllHaveQcode(subjects)
    ensures DerivedCategories(entries, subjects).Some? ==>
      var cs := DerivedCategories(entries, subjects).value;
      && (forall a, b :: 0 <= a < b < |cs| ==> cs[a] != cs[b])
      && (forall c :: c in cs <==>
            exists i :: 0 <= i < |entries| && entries[i].isActive && Matches(entries[i], subjects) && entries[i].category == c)
  {
    if entries != [] {
      var init := entries[..|entries| - 1];
      var e := entries[|entries| - 1];
      DerivedCategoriesSpec(init, subjects);
      assert forall i :: 0 <= i < |init| ==> init[i] == entries[i];
      if AnyActive(init) {
        var i :| 0 <= i < |init| && init[i].isActive;
        assert entries[i].isActive;
      }
      if AnyActive(entries) && !AnyActive(init) {
        assert e.isActive;
      }
      match DerivedCategories(init, subjects)
      case None =>
      case Some(acc) =>
        if e.isActive {
          ScanSubjectsSpec(acc, e, subjects);
        }
        if DerivedCategories(entries, subjects).Some? {
          var cs := DerivedCategories(entries, subjects).value;
          forall c | c in cs
            ensures exists i :: 0 <= i < |entries| && entries[i].isActive && Matches(entries[i], subjects) && entries[i].category == c
          {
            if c in acc {
              var i :| 0 <= i < |init| && init[i].isActive && Matches(init[i], subjects) && init[i].category == c;
              assert entries[i] == init[i];
            } else {
              assert entries[|entries| - 1] == e;
            }
          }
          forall c | exists i :: 0 <= i < |entries| && entries[i].isActive && Matches(entries[i], subjects) && entries[i].category == c
            ensures c in cs
          {
            var i :| 0 <= i < |entries| && entries[i].isActive && Matches(entries[i], subjects) && entries[i].category == c;
            if i < |init| {
              assert init[i] == entries[i];
            }
          }
        }
    }
  }

  lemma {:induction false} DerivedCategoriesNonePersists(entries: seq<MapEntry>, subjects: seq<Subject>, n: nat)
    requires n <= |entries| && DerivedCategories(entries[..n], subjects).None?
    ensures DerivedCategories(entries, subjects).None?
    decreases |entries| - n
  {
    if n < |entries| {
      assert entries[..n + 1][..n] == entries[..n];
      DerivedCategoriesNonePersists(entries, subjects, n + 1);
    } else {
      assert entries[..n] == entries;
    }
  }

  /** Map order: the categories collected from the first `n` map entries
      are a prefix of the whole result, so a category met on an earlier
      active entry comes before one first met on a later entry. */
  lemma {:induction false} DerivedCategoriesPrefix(entries: seq<MapEntry>, subjects: seq<Subject>, n: nat)
    requires n <= |entries| && DerivedCategories(entries, subjects).Some?
    ensures DerivedCategories(entries[..n], subjects).Some?
    ensures DerivedCategories(entries[..n], subjects).value <= DerivedCategories(entries, subjects).value
    decreases |entries|
  {
    if n == |entries| {
      assert entries[..n] == entries;
    } else {
      var init := entries[..|entries| - 1];
      var e := entries[|entries| - 1];
      var acc := DerivedCategories(init, subjects).value;
      if e.isActive {
        ScanSubjectsSpec(acc, e, subjects);
      }
      DerivedCategoriesPrefix(init, subjects, n);
      assert init[..n] == entries[..n];
    }
  }

  /** The category records `derive_category` stores: only a qcode. */
  function AsCategories(cs: seq<string>): (r: seq<Category>)
    ensures |r| == |cs|
    ensures forall k :: 0 <= k < |cs| ==> r[k] == Category(Some(cs[k]), None)
  {
    if cs == [] then [] else [Category(Some(cs[0]), None)] + AsCategories(cs[1..])
  }

  // ---------------------------------------------------------------------
  // Subject derived from the categories

  /** `next(...)` over the vocabulary: the first active entry with the
      category's qcode.  Comparing reads the category's qcode, so a category
      without one raises unless the vocabulary is empty. */
  function FirstActive(vocab: seq<VocabularyEntry>, q: Option<string>): Result<Option<VocabularyEntry>, ()> {
    if vocab == [] then Ok(None)
    else if q.None? then Err(())
    else if vocab[0].qcode == q.value && vocab[0].isActive then Ok(Some(vocab[0]))
    else FirstActive(vocab[1..], q)
  }

  lemma {:induction false} FirstActiveSpec(vocab: seq<VocabularyEntry>, q: Option<string>)
    ensures FirstActive(vocab, q).Err? <==> vocab != [] && q.None?
    ensures FirstActive(vocab, q) == Ok(None) <==>
      vocab == [] || (q.Some? && forall v :: v in vocab ==> !(v.qcode == q.value && v.isActive))
    ensures FirstActive(vocab, q).Ok? && FirstActive(vocab, q).value.Some? ==>
      var v := FirstActive(vocab, q).value.value;
      && v in vocab && q == Some(v.qcode) && v.isActive
      && exists i :: 0 <= i < |vocab| && vocab[i] == v &&
           forall j :: 0 <= j < i ==> !(vocab[j].qcode == v.qcode && vocab[j].isActive)
  {
    if vocab != [] && q.Some? {
      FirstActiveSpec(vocab[1..], q);
      if FirstActive(vocab, q).Ok? && FirstActive(vocab, q).value.Some? {
        var v := FirstActive(vocab, q).value.value;
        if vocab[0].qcode == q.value && vocab[0].isActive {
          assert vocab[0] == v;
        } else {
          var i :| 0 <= i < |vocab[1..]| && vocab[1..][i] == v &&
            forall j :: 0 <= j < i ==> !(vocab[1..][j].qcode == v.qcode && vocab[1..][j].isActive);
          assert vocab[i + 1] == v;
          forall j | 0 <= j < i + 1
            ensures !(vocab[j].qcode == v.qcode && vocab[j].isActive)
          {
            if j > 0 {
              assert vocab[j] == vocab[1..][j - 1];
            }
          }
        }
      }
    }
  }

  /** The subject after the categories seen so far, and whether an exception
      ended the loop. */
  datatype SubjectDerivation = SubjectDerivation(subject: Option<seq<Subject>>, stopped: bool)

  function DeriveSubjectStep(cur: Option<seq<Subject>>, cat: Category, vocab: seq<VocabularyEntry>,
                             subjectCodes: map<string, string>): SubjectDerivation
  {
    match FirstActive(vocab, cat.qcode)
    case Err(_) => SubjectDerivation(cur, true)
    case Ok(None) => SubjectDerivation(cur, false)
    case Ok(Some(e)) =>
      if e.subject.None? then SubjectDerivation(cur, false)
      else if e.subject.value in subjectCodes then
        SubjectDerivation(Some([Subject(e.subject, Some(subjectCodes[e.subject.value]))]), false)
      else SubjectDerivation(cur, true)
  }

  /** The loop of `derive_subject` over the categories in order; assignments
      made before an exception stay. */
  function DeriveSubjectFold(cats: seq<Category>, vocab: seq<VocabularyEntry>, subjectCodes: map<string, string>,
                             start: Option<seq<Subject>>): SubjectDerivation
  {
    if cats == [] then SubjectDerivation(start, false)
    else
      var d := DeriveSubjectFold(cats[..|cats| - 1], vocab, subjectCodes, start);
      if d.stopped then d else DeriveSubjectStep(d.subject, cats[|cats| - 1], vocab, subjectCodes)
  }

  /** The fold over one more category is one more step, unless it has stopped. */
  lemma DeriveSubjectFoldNext(cats: seq<Category>, vocab: seq<VocabularyEntry>, subjectCodes: map<string, string>,
                              start: Option<seq<Subject>>, i: nat)
    requires i < |cats|
    ensures var d := DeriveSubjectFold(cats[..i], vocab, subjectCodes, start);
      DeriveSubjectFold(cats[..i + 1], vocab, subjectCodes, start)
        == if d.stopped then d else DeriveSubjectStep(d.subject, cats[i], vocab, subjectCodes)
  {
    assert cats[..i + 1][..i] == cats[..i];
  }

  /** Once an exception has ended the loop, later categories change nothing. */
  lemma {:induction false} DeriveSubjectStoppedPersists(cats: seq<Category>, vocab: seq<VocabularyEntry>,
                                                            subjectCodes: map<string, string>,
                                                            start: Option<seq<Subject>>, n: nat)
    requires 0 < n <= |cats| && DeriveSubjectFold(cats[..n], vocab, subjectCodes, start).stopped
    ensures DeriveSubjectFold(cats, vocab, subjectCodes, start) == DeriveSubjectFold(cats[..n], vocab, subjectCodes, start)
    decreases |cats| - n
  {
    if n < |cats| {
      assert cats[..n + 1][..n] == cats[..n];
      DeriveSubjectStoppedPersists(cats, vocab, subjectCodes, start, n + 1);
    } else {
      assert cats[..n] == cats;
    }
  }

  /** The derived subject is the item's own or a single subject taken from the
      vocabulary entry of one of the item's categories, named from the IPTC
      code table. */
  lemma {:induction false} DeriveSubjectFoldSpec(cats: seq<Category>, vocab: seq<VocabularyEntry>,
                                                 subjectCodes: map<string, string>, start: Option<seq<Subject>>)
    ensures var d := DeriveSubjectFold(cats, vocab, subjectCodes, start);
      || d.subject == start
      || exists c, v, s :: && c in cats && v in vocab && v.isActive && c.qcode == Some(v.qcode)
                          && v.subject == Some(s) && s in subjectCodes
                          && d.subject == Some([Subject(Some(s), Some(subjectCodes[s]))])
  {
    if cats != [] {
      var init := cats[..|cats| - 1];
      var c := cats[|cats| - 1];
      DeriveSubjectFoldSpec(init, vocab, subjectCodes, start);
      var d := DeriveSubjectFold(init, vocab, subjectCodes, start);
      if !d.stopped {
        FirstActiveSpec(vocab, c.qcode);
      }
      var d' := DeriveSubjectFold(cats, vocab, subjectCodes, start);
      if d'.subject != start && d'.subject == d.subject {
        var c0, v, s :| && c0 in init && v in vocab && v.isActive && c0.qcode == Some(v.qcode)
                        && v.subject == Some(s) && s in subjectCodes
                        && d.subject == Some([Subject(Some(s), Some(subjectCodes[s]))]);
        assert c0 in cats;
      }
    }
  }

  /** The last category that yields a subject wins. */
  lemma LastCategoryWins(cats: seq<Category>, vocab: seq<VocabularyEntry>, subjectCodes: map<string, string>,
                         start: Option<seq<Subject>>, v: VocabularyEntry)
    requires cats != [] && !DeriveSubjectFold(cats[..|cats| - 1], vocab, subjectCodes, start).stopped
    requires FirstActive(vocab, cats[|cats| - 1].qcode) == Ok(Some(v))
    requires v.subject.Some? && v.subject.value in subjectCodes
    ensures DeriveSubjectFold(cats, vocab, subjectCodes, start) ==
      SubjectDerivation(Some([Subject(v.subject, Some(subjectCodes[v.subject.value]))]), false)
  {
  }

  // ---------------------------------------------------------------------
  // Rule sets

  /** Python's `str.replace(pattern, replacement)`: every non-overlapping
      occurrence, scanning from the left; an empty pattern matches before
      every character and at the end. */
  function ReplaceAll(s: string, pattern: string, replacement: string): string
    decreases |s|
  {
    if pattern == [] then InsertEverywhere(s, replacement)
    else if |s| < |pattern| then s
    else if s[..|pattern|] == pattern then replacement + ReplaceAll(s[|pattern|..], pattern, replacement)
    else [s[0]] + ReplaceAll(s[1..], pattern, replacement)
  }

  function InsertEverywhere(s: string, x: string): string {
    if s == [] then x else x + [s[0]] + InsertEverywhere(s[1..], x)
  }

  predicate OccursAt(pattern: string, s: string, k: int) {
    0 <= k && k + |pattern| <= |s| && s[k..k + |pattern|] == pattern
  }

  predicate Occurs(pattern: string, s: string) {
    exists k :: 0 <= k <= |s| && OccursAt(pattern, s, k)
  }

  /** A pattern that does not occur leaves the text as it is. */
  lemma {:induction false} ReplaceAbsent(s: string, pattern: string, replacement: string)
    requires pattern != [] && !Occurs(pattern, s)
    ensures ReplaceAll(s, pattern, replacement) == s
    decreases |s|
  {
    if |s| >= |pattern| {
      assert !OccursAt(pattern, s, 0);
      assert s[0..0 + |pattern|] == s[..|pattern|];
      if Occurs(pattern, s[1..]) {
        var k :| 0 <= k <= |s[1..]| && OccursAt(pattern, s[1..], k);
        assert s[1..][k..k + |pattern|] == s[k + 1..k + 1 + |pattern|];
        assert OccursAt(pattern, s, k + 1);
      }
      ReplaceAbsent(s[1..], pattern, replacement);
      assert s == [s[0]] + s[1..];
    }
  }

  /** Replacing a pattern by itself changes nothing. */
  lemma {:induction false} ReplaceByItself(s: string, pattern: string)
    ensures ReplaceAll(s, pattern, pattern) == s
    decreases |s|
  {
    if pattern == [] {
      InsertNothing(s);
    } else if |s| >= |pattern| {
      if s[..|pattern|] == pattern {
        ReplaceByItself(s[|pattern|..], pattern);
        assert s == s[..|pattern|] + s[|pattern|..];
      } else {
        ReplaceByItself(s[1..], pattern);
        assert s == [s[0]] + s[1..];
      }
    }
  }

  lemma {:induction false} InsertNothing(s: string)
    ensures InsertEverywhere(s, []) == s
  {
    if s != [] {
      InsertNothing(s[1..]);
      assert s == [s[0]] + s[1..];
    }
  }

  /** Python's `str.split(pattern)` for a non-empty pattern: the pieces
      between the non-overlapping occurrences found from the left. */
  function Split(s: string, pattern: string): (pieces: seq<string>)
    requires pattern != []
    ensures |pieces| >= 1 && pieces[0] <= s
    decreases |s|
  {
    if |s| < |pattern| then [s]
    else if s[..|pattern|] == pattern then [[]] + Split(s[|pattern|..], pattern)
    else var rest := Split(s[1..], pattern); [[s[0]] + rest[0]] + rest[1..]
  }

  /** Python's `sep.join(pieces)`. */
  function Join(pieces: seq<string>, sep: string): string {
    if pieces == [] then []
    else if |pieces| == 1 then pieces[0]
    else pieces[0] + sep + Join(pieces[1..], sep)
  }

  lemma JoinConsChar(c: char, pieces: seq<string>, sep: string)
    requires pieces != []
    ensures Join([[c] + pieces[0]] + pieces[1..], sep) == [c] + Join(pieces, sep)
  {
    var ps := [[c] + pieces[0]] + pieces[1..];
    assert ps[1..] == pieces[1..];
  }

  lemma OccursCons(pattern: string, c: char, t: string)
    requires pattern != [] && Occurs(pattern, [c] + t)
    ensures OccursAt(pattern, [c] + t, 0) || Occurs(pattern, t)
  {
    var k :| 0 <= k <= |[c] + t| && OccursAt(pattern, [c] + t, k);
    if k > 0 {
      assert ([c] + t)[k..k + |pattern|] == t[k - 1..k - 1 + |pattern|];
      assert OccursAt(pattern, t, k - 1);
    }
  }

  /** No piece of a split holds an occurrence of the pattern. */
  lemma {:induction false} SplitPiecesFree(s: string, pattern: string)
    requires pattern != []
    ensures forall k :: 0 <= k < |Split(s, pattern)| ==> !Occurs(pattern, Split(s, pattern)[k])
    decreases |s|
  {
    var pieces := Split(s, pattern);
    if |s| >= |pattern| && s[..|pattern|] == pattern {
      var rest := Split(s[|pattern|..], pattern);
      SplitPiecesFree(s[|pattern|..], pattern);
      forall k | 0 < k < |pieces|
        ensures !Occurs(pattern, pieces[k])
      {
        assert pieces[k] == rest[k - 1];
      }
    } else if |s| >= |pattern| {
      var rest := Split(s[1..], pattern);
      SplitPiecesFree(s[1..], pattern);
      forall k | 0 < k < |pieces|
        ensures !Occurs(pattern, pieces[k])
      {
        assert pieces[k] == rest[k];
      }
      if Occurs(pattern, [s[0]] + rest[0]) {
        OccursCons(pattern, s[0], rest[0]);
      }
    }
  }

  /** Joining the pieces of a split with the pattern gives the text back. */
  lemma {:induction false} SplitJoinRoundTrip(s: string, pattern: string)
    requires pattern != []
    ensures Join(Split(s, pattern), pattern) == s
    decreases |s|
  {
    if |s| >= |pattern| {
      if s[..|pattern|] == pattern {
        SplitJoinRoundTrip(s[|pattern|..], pattern);
        SplitJoinAtPattern(s, pattern);
      } else {
        SplitJoinRoundTrip(s[1..], pattern);
        SplitJoinAtChar(s, pattern);
      }
    }
  }

  lemma SplitJoinAtPattern(s: string, pattern: string)
    requires pattern != [] && |s| >= |pattern| && s[..|pattern|] == pattern
    requires Join(Split(s[|pattern|..], pattern), pattern) == s[|pattern|..]
    ensures Join(Split(s, pattern), pattern) == s
  {
    var rest := Split(s[|pattern|..], pattern);
    JoinCons([], rest, pattern);
    calc {
      Join(Split(s, pattern), pattern);
      Join([[]] + rest, pattern);
      [] + pattern + Join(rest, pattern);
      { assert [] + pattern == pattern; }
      pattern + s[|pattern|..];
      { TakeDrop(s, |pattern|); }
      s;
    }
  }

  lemma JoinCons(x: string, rest: seq<string>, sep: string)
    requires rest != []
    ensures Join([x] + rest, sep) == x + sep + Join(rest, sep)
  {
    assert ([x] + rest)[1..] == rest;
  }

  lemma TakeDrop(s: string, n: nat)
    requires n <= |s|
    ensures s[..n] + s[n..] == s
  {
  }

  lemma SplitJoinAtChar(s: string, pattern: string)
    requires pattern != [] && |s| >= |pattern| && s[..|pattern|] != pattern
    requires Join(Split(s[1..], pattern), pattern) == s[1..]
    ensures Join(Split(s, pattern), pattern) == s
  {
    SplitAtChar(s, pattern);
    JoinAfterChar(s, Split(s[1..], pattern), pattern);
  }

  /** Away from an occurrence the first character joins the first piece. */
  lemma SplitAtChar(s: string, pattern: string)
    requires pattern != [] && |s| >= |pattern| && s[..|pattern|] != pattern
    ensures Split(s, pattern) == [[s[0]] + Split(s[1..], pattern)[0]] + Split(s[1..], pattern)[1..]
  {
  }

  lemma JoinAfterChar(s: string, rest: seq<string>, sep: string)
    requires s != [] && rest != [] && Join(rest, sep) == s[1..]
    ensures Join([[s[0]] + rest[0]] + rest[1..], sep) == s
  {
    JoinConsChar(s[0], rest, sep);
    TakeDrop(s, 1);
    assert s[..1] == [s[0]];
  }

  /** `ReplaceAll` joins the pieces of the split with the replacement. */
  lemma {:induction false} ReplaceAllJoinsPieces(s: string, pattern: string, replacement: string)
    requires pattern != []
    ensures ReplaceAll(s, pattern, replacement) == Join(Split(s, pattern), replacement)
    decreases |s|
  {
    if |s| >= |pattern| {
      if s[..|pattern|] == pattern {
        var rest := Split(s[|pattern|..], pattern);
        ReplaceAllJoinsPieces(s[|pattern|..], pattern, replacement);
        assert Split(s, pattern) == [[]] + rest;
        assert ([[]] + rest)[1..] == rest;
      } else {
        var rest := Split(s[1..], pattern);
        ReplaceAllJoinsPieces(s[1..], pattern, replacement);
        assert Split(s, pattern) == [[s[0]] + rest[0]] + rest[1..];
        JoinConsChar(s[0], rest, replacement);
      }
    }
  }

  /** `ReplaceAll` replaces every occurrence: the text splits at the pattern
      into pieces that hold no occurrence, joining them with the pattern
      gives the text back, and joining them with the replacement gives the
      result (`s.replace(p, r) == r.join(s.split(p))`). */
  lemma ReplaceAllSplitJoin(s: string, pattern: string, replacement: string)
    requires pattern != []
    ensures forall k :: 0 <= k < |Split(s, pattern)| ==> !Occurs(pattern, Split(s, pattern)[k])
    ensures Join(Split(s, pattern), pattern) == s
    ensures ReplaceAll(s, pattern, replacement) == Join(Split(s, pattern), replacement)
  {
    SplitPiecesFree(s, pattern);
    SplitJoinRoundTrip(s, pattern);
    ReplaceAllJoinsPieces(s, pattern, replacement);
  }

  /** The rules of a rule set applied one after the other. */
  function ApplyRules(body: string, rules: seq<Rule>): string {
    if rules == [] then body
    else
      var r := rules[|rules| - 1];
      ReplaceAll(ApplyRules(body, rules[..|rules| - 1]), r.pattern, r.replacement)
  }

  /** Applying two rule lists in turn is applying their concatenation. */
  lemma {:induction false} ApplyRulesConcat(body: string, r1: seq<Rule>, r2: seq<Rule>)
    ensures ApplyRules(body, r1 + r2) == ApplyRules(ApplyRules(body, r1), r2)
    decreases |r2|
  {
    if r2 == [] {
      assert r1 + r2 == r1;
    } else {
      var init := r2[..|r2| - 1];
      ApplyRulesConcat(body, r1, init);
      assert (r1 + r2)[..|r1 + r2| - 1] == r1 + init;
    }
  }

  /** Rules none of whose (non-empty) patterns occur in the body leave it alone. */
  lemma {:induction false} ApplyRulesNoMatch(body: string, rules: seq<Rule>)
    requires forall r :: r in rules ==> r.pattern != [] && !Occurs(r.pattern, body)
    ensures ApplyRules(body, rules) == body
  {
    if rules != [] {
      var init := rules[..|rules| - 1];
      assert forall r :: r in init ==> r in rules;
      ApplyRulesNoMatch(body, init);
      var r := rules[|rules| - 1];
      ReplaceAbsent(body, r.pattern, r.replacement);
    }
  }

  /** The rule set in force: the one handed in, else the provider's stored
      one (`find_one` yields nothing for an unknown id). */
  function ResolveRuleSet(ruleSet: Option<seq<Rule>>, providerRuleSet: Option<string>,
                          ruleSets: map<string, seq<Rule>>): Option<seq<Rule>>
  {
    if ruleSet.Some? then ruleSet
    else if providerRuleSet.Some? && providerRuleSet.value in ruleSets then Some(ruleSets[providerRuleSet.value])
    else None
  }

  // ---------------------------------------------------------------------
  // The item

  class Item {
    var subject: Option<seq<Subject>>
    var anpaCategory: Option<seq<Category>>
    var bodyHtml: Option<string>

    constructor (subject: Option<seq<Subject>>, anpaCategory: Option<seq<Category>>, bodyHtml: Option<string>)
      ensures this.subject == subject && this.anpaCategory == anpaCategory && this.bodyHtml == bodyHtml
    {
      this.subject := subject;
      this.anpaCategory := anpaCategory;
      this.bodyHtml := bodyHtml;
    }

    /** `process_anpa_category`, given the "categories" vocabulary (`None`
        when it is not found).  The loop as written; `ok` is false when it
        raised, in which case the changes made so far stay. */
    method ProcessAnpaCategory(vocab: Option<seq<VocabularyEntry>>) returns (ok: bool)
      modifies this
      ensures subject == old(subject) && bodyHtml == old(bodyHtml)
      ensures vocab.None? ==> ok && anpaCategory == old(anpaCategory)
      ensures vocab.Some? && old(anpaCategory).None? ==> !ok && anpaCategory == old(anpaCategory)
      ensures vocab.Some? && old(anpaCategory).Some? ==>
        var outcome := AnpaPass(old(anpaCategory).value, vocab.value, 0);
        anpaCategory == Some(outcome.cats) && ok == outcome.ok
    {
      if vocab.None? {
        return true;
      }
      if anpaCategory.None? {
        return false;
      }
      var v := vocab.value;
      var cats := anpaCategory.value;
      var i := 0;
      while i < |cats|
        invariant AnpaPass(cats, v, i) == AnpaPass(old(anpaCategory).value, v, 0)
        invariant subject == old(subject) && bodyHtml == old(bodyHtml)
        decreases |cats| - i
      {
        if cats[i].qcode.None? && HasActive(v) {
          anpaCategory := Some(cats);
          return false;
        }
        var mapped := if cats[i].qcode.Some? then Matching(v, cats[i].qcode.value) else [];
        if |mapped| == 0 {
          cats := RemoveFirst(cats, cats[i]);
        } else {
          cats := cats[i := Normalised(mapped[0])];
        }
        i := i + 1;
      }
      anpaCategory := Some(cats);
      ok := true;
    }

    /** `derive_category`, given the "iptc_category_map" and "categories"
        vocabularies.  The categories collected from the active map entries
        replace `anpa_category` and are normalised, unless none was found or a
        subject without a qcode made the loop raise. */
    method DeriveCategory(subjectMap: Option<seq<MapEntry>>, vocab: Option<seq<VocabularyEntry>>)
      modifies this
      ensures subject == old(subject) && bodyHtml == old(bodyHtml)
      ensures subjectMap.None? ==> anpaCategory == old(anpaCategory)
      ensures subjectMap.Some? ==>
        var derived := DerivedCategories(subjectMap.value, old(subject).GetOr([]));
        && (derived.None? || derived.value == [] ==> anpaCategory == old(anpaCategory))
        && (derived.Some? && derived.value != [] && vocab.None? ==> anpaCategory == Some(AsCategories(derived.value)))
        && (derived.Some? && derived.value != [] && vocab.Some? ==>
              anpaCategory == Some(AnpaPass(AsCategories(derived.value), vocab.value, 0).cats))
    {
      if subjectMap.None? {
        return;
      }
      var entries := subjectMap.value;
      var subjects := subject.GetOr([]);
      var categories: seq<string> := [];
      var i := 0;
      while i < |entries|
        invariant 0 <= i <= |entries|
        invariant DerivedCategories(entries[..i], subjects) == Some(categories)
      {
        assert entries[..i + 1][..i] == entries[..i];
        var e := entries[i];
        if e.isActive {
          ghost var acc := categories;
          var j := 0;
          while j < |subjects|
            invariant 0 <= j <= |subjects|
            invariant ScanSubjects(acc, e, subjects[..j]) == Some(categories)
          {
            assert subjects[..j + 1][..j] == subjects[..j];
            if subjects[j].qcode.None? {
              assert ScanSubjects(acc, e, subjects[..j + 1]).None?;
              if j + 1 < |subjects| {
                ScanSubjectsNonePersists(acc, e, subjects, j + 1);
              } else {
                assert subjects[..j + 1] == subjects;
              }
              assert DerivedCategories(entries[..i + 1], subjects).None?;
              DerivedCategoriesNonePersists(entries, subjects, i + 1);
              return;
            }
            if subjects[j].qcode.value == e.qcode && e.category !in categories {
              categories := categories + [e.category];
            }
            j := j + 1;
          }
          assert subjects[..j] == subjects;
        }
        i := i + 1;
      }
      assert entries[..i] == entries;
      if |categories| > 0 {
        anpaCategory := Some(AsCategories(categories));
        var _ := ProcessAnpaCategory(vocab);
      }
    }

    /** `derive_subject`, given the "categories" vocabulary and the IPTC code
        table: the subject of the vocabulary entry of each category in turn
        replaces `subject`.  A raise ends the loop quietly. */
    method DeriveSubject(vocab: Option<seq<VocabularyEntry>>, subjectCodes: map<string, string>)
      modifies this
      ensures anpaCategory == old(anpaCategory) && bodyHtml == old(bodyHtml)
      ensures vocab.None? || old(anpaCategory).None? ==> subject == old(subject)
      ensures vocab.Some? && old(anpaCategory).Some? ==>
        subject == DeriveSubjectFold(old(anpaCategory).value, vocab.value, subjectCodes, old(subject)).subject
    {
      if vocab.None? || anpaCategory.None? {
        return;
      }
      var cats := anpaCategory.value;
      var i := 0;
      while i < |cats|
        invariant 0 <= i <= |cats|
        invariant anpaCategory == old(anpaCategory) && bodyHtml == old(bodyHtml)
        invariant DeriveSubjectFold(cats[..i], vocab.value, subjectCodes, old(subject)) == SubjectDerivation(subject, false)
      {
        DeriveSubjectFoldNext(cats, vocab.value, subjectCodes, old(subject), i);
        var entry := FirstActive(vocab.value, cats[i].qcode);
        if entry.Err? {
          DeriveSubjectStoppedPersists(cats, vocab.value, subjectCodes, old(subject), i + 1);
          return;
        }
        if entry.value.Some? && entry.value.value.subject.Some? {
          var code := entry.value.value.subject.value;
          if code !in subjectCodes {
            DeriveSubjectStoppedPersists(cats, vocab.value, subjectCodes, old(subject), i + 1);
            return;
          }
          subject := Some([Subject(Some(code), Some(subjectCodes[code]))]);
        }
        i := i + 1;
      }
      assert cats[..i] == cats;
    }

    /** `apply_rule_set`: the rule set handed in, else the provider's stored
        one, rewrites `body_html` rule by rule.  Without a rule set or a body
        the item is unchanged. */
    method ApplyRuleSet(ruleSet: Option<seq<Rule>>, providerRuleSet: Option<string>, ruleSets: map<string, seq<Rule>>)
      modifies this
      ensures subject == old(subject) && anpaCategory == old(anpaCategory)
      ensures var rules := ResolveRuleSet(ruleSet, providerRuleSet, ruleSets);
        bodyHtml == if rules.Some? && old(bodyHtml).Some? then Some(ApplyRules(old(bodyHtml).value, rules.value)) else old(bodyHtml)
    {
      var rules := ruleSet;
      if rules.None? && providerRuleSet.Some? {
        rules := if providerRuleSet.value in ruleSets then Some(ruleSets[providerRuleSet.value]) else None;
      }
      if rules.Some? && bodyHtml.Some? {
        var body := bodyHtml.value;
        var k := 0;
        while k < |rules.value|
          invariant 0 <= k <= |rules.value|
          invariant body == ApplyRules(old(bodyHtml).value, rules.value[..k])
        {
          assert rules.value[..k + 1][..k] == rules.value[..k];
          body := ReplaceAll(body, rules.value[k].pattern, rules.value[k].replacement);
          k := k + 1;
        }
        assert rules.value[..k] == rules.value;
        bodyHtml := Some(body);
      }
    }

    /** `iptc_already_exists`: some subject entry has the code. */
    method IptcAlreadyExists(code: string) returns (found: bool)
      requires subject.Some?
      ensures found == (code in Codes(subject.value))
    {
      var s := subject.value;
      found := false;
      var j := 0;
      while j < |s|
        invariant 0 <= j <= |s|
        invariant found == (code in Codes(s[..j]))
      {
        assert s[..j + 1][..j] == s[..j];
        if s[j].qcode == Some(code) {
          found := true;
        }
        j := j + 1;
      }
      assert s[..j] == s;
    }

    /** `process_iptc_codes`: walks the subject list, including the entries it
        appends itself, and appends the missing top- and mid-level code of
        every IPTC subject, named from `subjectCodes`.  A code the table lacks
        raises after the appends made so far; so does a missing `subject`. */
    method ProcessIptcCodes(subjectCodes: map<string, string>) returns (ok: bool)
      modifies this
      ensures anpaCategory == old(anpaCategory) && bodyHtml == old(bodyHtml)
      ensures old(subject).None? ==> !ok && subject == old(subject)
      ensures old(subject).Some? ==> subject.Some? && old(subject).value <= subject.value
      ensures ok ==> ExpandedFrom(subject.value, 0)
      ensures old(subject).Some? ==> AppendedFresh(subject.value, |old(subject).value|, subjectCodes)
      ensures old(subject).Some? ==> ParentsAppended(subject.value, |old(subject).value|)
      ensures !ok && old(subject).Some? ==>
        exists j :: && 0 <= j < |subject.value| && subject.value[j].qcode.Some? && IsIptcCode(subject.value[j].qcode.value)
                    && (TopCode(subject.value[j].qcode.value) !in subjectCodes || MidCode(subject.value[j].qcode.value) !in subjectCodes)
    {
      if subject.None? {
        return false;
      }
      ghost var start := subject.value;
      ok := true;
      var i := 0;
      while i < |subject.value|
        invariant subject.Some? && start <= subject.value && 0 <= i <= |subject.value|
        invariant anpaCategory == old(anpaCategory) && bodyHtml == old(bodyHtml)
        invariant ExpandedUpTo(subject.value, i)
        invariant ExpandedFrom(subject.value, |start|)
        invariant AppendedFresh(subject.value, |start|, subjectCodes)
        invariant ParentsAppended(subject.value, |start|)
        decreases if i < |start| then |start| - i else 0, |subject.value| - i
      {
        ok := ExpandAt(i, subjectCodes, start);
        if !ok {
          return;
        }
        i := i + 1;
      }
    }

    /** One round of the loop of `process_iptc_codes`: the entry at `i`, when
        it is an IPTC code, gets its top- and mid-level codes, unless the table
        lacks one of them. */
    method ExpandAt(i: nat, subjectCodes: map<string, string>, ghost start: seq<Subject>) returns (ok: bool)
      requires subject.Some? && start <= subject.value && i < |subject.value|
      requires ExpandedUpTo(subject.value, i) && ExpandedFrom(subject.value, |start|)
      requires AppendedFresh(subject.value, |start|, subjectCodes)
      requires ParentsAppended(subject.value, |start|)
      modifies this
      ensures anpaCategory == old(anpaCategory) && bodyHtml == old(bodyHtml)
      ensures subject.Some? && old(subject).value <= subject.value
      ensures AppendedFresh(subject.value, |start|, subjectCodes)
      ensures ParentsAppended(subject.value, |start|)
      ensures forall j :: |old(subject).value| <= j < |subject.value| ==> IsParentEntry(subject.value[i], subject.value[j])
      ensures i >= |start| ==> subject == old(subject)
      ensures ok ==> ExpandedUpTo(subject.value, i + 1) && ExpandedFrom(subject.value, |start|)
      ensures !ok ==> subject.value[i].qcode.Some? && IsIptcCode(subject.value[i].qcode.value)
                      && (TopCode(subject.value[i].qcode.value) !in subjectCodes || MidCode(subject.value[i].qcode.value) !in subjectCodes)
    {
      ghost var before := subject.value;
      var e := subject.value[i];
      if e.qcode.Some? && IsIptcCode(e.qcode.value) {
        var q := e.qcode.value;
        ParentCodes(q);
        if i >= |start| {
          assert Expanded(before[i], Codes(before));
        }
        var top := TopCode(q);
        ok := AddParent(top, subjectCodes, start);
        ParentsAppendedGrow(before, subject.value, |start|, i);
        if !ok {
          assert subject.value[i] == e;
          return;
        }
        ghost var withTop := subject.value;
        var mid := MidCode(q);
        ok := AddParent(mid, subjectCodes, start);
        ParentsAppendedGrow(withTop, subject.value, |start|, i);
        if !ok {
          assert subject.value[i] == e;
          return;
        }
        IterationKeepsExpanded(before, subject.value, i, |start|, q);
      } else {
        assert Expanded(before[i], Codes(before));
        ok := true;
      }
    }

    /** One `iptc_already_exists` test and, when it fails, one append. */
    method AddParent(code: string, subjectCodes: map<string, string>, ghost start: seq<Subject>) returns (ok: bool)
      requires subject.Some? && start <= subject.value
      requires AppendedFresh(subject.value, |start|, subjectCodes)
      modifies this
      ensures anpaCategory == old(anpaCategory) && bodyHtml == old(bodyHtml)
      ensures subject.Some? && old(subject).value <= subject.value && start <= subject.value
      ensures AppendedFresh(subject.value, |start|, subjectCodes)
      ensures ok <==> code in Codes(old(subject).value) || code in subjectCodes
      ensures !ok || code in Codes(old(subject).value) ==> subject == old(subject)
      ensures ok ==> Codes(subject.value) == Codes(old(subject).value) + {code}
      ensures forall j :: |old(subject).value| <= j < |subject.value| ==> subject.value[j].qcode == Some(code)
    {
      var present := IptcAlreadyExists(code);
      if present {
        return true;
      }
      if code !in subjectCodes {
        return false;
      }
      var s := subject.value;
      var x := Subject(Some(code), Some(subjectCodes[code]));
      subject := Some(s + [x]);
      assert (s + [x])[..|s|] == s;
      AppendKeepsFresh(s, x, |start|, subjectCodes);
      ok := true;
    }
  }

  /** `parent` carries the top- or mid-level code of the IPTC subject `child`. */
  predicate IsParentEntry(child: Subject, parent: Subject) {
    && child.qcode.Some? && IsIptcCode(child.qcode.value) && parent.qcode.Some?
    && (parent.qcode.value == TopCode(child.qcode.value) || parent.qcode.value == MidCode(child.qcode.value))
  }

  /** Every entry from position `n` on carries the top- or mid-level code of
      an earlier IPTC entry. */
  ghost predicate ParentsAppended(s: seq<Subject>, n: nat) {
    forall j :: n <= j < |s| ==> HasParentBefore(s, j)
  }

  /** Some entry before position `j` is an IPTC subject whose top- or
      mid-level code the entry at `j` carries. */
  ghost predicate HasParentBefore(s: seq<Subject>, j: nat)
    requires j < |s|
  {
    exists k :: 0 <= k < j && IsParentEntry(s[k], s[j])
  }

  /** Entries appended for the parents of the subject at `i` keep `ParentsAppended`. */
  lemma ParentsAppendedGrow(s: seq<Subject>, t: seq<Subject>, n: nat, i: nat)
    requires s <= t && i < |s| && ParentsAppended(s, n)
    requires forall j :: |s| <= j < |t| ==> IsParentEntry(s[i], t[j])
    ensures ParentsAppended(t, n)
    ensures forall j :: |s| <= j < |t| ==> IsParentEntry(t[i], t[j])
  {
    forall j | n <= j < |t| ensures HasParentBefore(t, j) {
      if j < |s| {
        assert HasParentBefore(s, j);
        var k :| 0 <= k < j && IsParentEntry(s[k], s[j]);
        assert t[k] == s[k] && t[j] == s[j];
        assert IsParentEntry(t[k], t[j]);
      } else {
        assert t[i] == s[i];
        assert IsParentEntry(t[i], t[j]);
      }
    }
  }

  ghost predicate ExpandedUpTo(s: seq<Subject>, i: nat) {
    forall j :: 0 <= j < i && j < |s| ==> Expanded(s[j], Codes(s))
  }

  ghost predicate ExpandedFrom(s: seq<Subject>, n: nat) {
    forall j :: n <= j < |s| ==> Expanded(s[j], Codes(s))
  }

  /** Every entry from position `n` on has a code that no earlier entry has,
      and is named from the code table. */
  ghost predicate AppendedFresh(s: seq<Subject>, n: nat, subjectCodes: map<string, string>) {
    forall j :: n <= j < |s| ==>
      && s[j].qcode.Some?
      && s[j].qcode.value !in Codes(s[..j])
      && s[j].qcode.value in subjectCodes
      && s[j].name == Some(subjectCodes[s[j].qcode.value])
  }

  lemma AppendKeepsFresh(s: seq<Subject>, x: Subject, n: nat, subjectCodes: map<string, string>)
    requires AppendedFresh(s, n, subjectCodes)
    requires x.qcode.Some? && x.qcode.value !in Codes(s) && x.qcode.value in subjectCodes
    requires x.name == Some(subjectCodes[x.qcode.value])
    ensures AppendedFresh(s + [x], n, subjectCodes)
    ensures Codes(s + [x]) == Codes(s) + {x.qcode.value}
  {
    var t := s + [x];
    assert t[..|s|] == s;
    forall j | n <= j < |t|
      ensures t[j].qcode.Some? && t[j].qcode.value !in Codes(t[..j])
    {
      if j < |s| {
        assert t[..j] == s[..j];
      }
    }
  }

  /** After the top- and mid-level codes of the subject at `i` are present, the
      subjects up to `i` and all appended ones are expanded. */
  lemma IterationKeepsExpanded(s: seq<Subject>, t: seq<Subject>, i: nat, n: nat, q: string)
    requires s <= t && i < |s| && n <= |s|
    requires s[i].qcode == Some(q) && IsIptcCode(q)
    requires ExpandedUpTo(s, i) && ExpandedFrom(s, n)
    requires Codes(s) <= Codes(t) && TopCode(q) in Codes(t) && MidCode(q) in Codes(t)
    requires forall j :: |s| <= j < |t| ==> t[j].qcode == Some(TopCode(q)) || t[j].qcode == Some(MidCode(q))
    ensures ExpandedUpTo(t, i + 1) && ExpandedFrom(t, n)
  {
    ParentCodes(q);
    forall j | 0 <= j < |t| && (j <= i || n <= j) ensures Expanded(t[j], Codes(t)) {
      if j < |s| {
        assert t[j] == s[j];
        if j != i {
          assert Expanded(s[j], Codes(s));
        }
      }
    }
  }
}
