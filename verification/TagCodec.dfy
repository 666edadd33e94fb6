/** The comma-joined form of a tag set, and the three conversions back. */
module TagCodec {
  import opened Text
  import opened Options

  type Tags = Option<seq<Option<string>>>

  const COMMA := ','

  function Texts(tags: seq<Option<string>>): seq<string> {
    seq(|tags|, i requires 0 <= i < |tags| => match tags[i] case None => "" case Some(t) => t)
  }

  function Present(parts: seq<string>): seq<Option<string>> {
    seq(|parts|, i requires 0 <= i < |parts| => Some(parts[i]))
  }

  /** `ChunkMetadataStringTagSet::from(ChunkMetadata)`. */
  function Encode(tags: Tags): Option<string> {
    match tags case None => None case Some(ts) => Some(Join(Texts(ts), COMMA))
  }

  /** From the string-tag-set form: an empty first tag empties the whole set. */
  function DecodeStored(s: Option<string>): Tags {
    match s
    case None => None
    case Some(t) =>
      var parts := Split(t, COMMA);
      Some(if parts[0] == "" then [] else Present(parts))
  }

  /** From the slim form: no filter at all. */
  function DecodeSlim(s: Option<string>): Tags {
    match s case None => None case Some(t) => Some(Present(Split(t, COMMA)))
  }

  function NonEmpty(parts: seq<string>): seq<string> {
    if parts == [] then [] else (if parts[0] == "" then [] else [parts[0]]) + NonEmpty(parts[1..])
  }

  /** From the scored form: empty tags are dropped. */
  function DecodeScored(s: Option<string>): Tags {
    match s case None => None case Some(t) => Some(Present(NonEmpty(Split(t, COMMA))))
  }

  // ---------------------------------------------------------------- which tag sets survive

  /** Every tag is there and has no comma. */
  ghost predicate Plain(tags: seq<Option<string>>) {
    forall t <- tags :: t.Some? && COMMA !in t.value
  }

  lemma PresentTexts(tags: seq<Option<string>>)
    ensures (forall t <- tags :: t.Some?) <==> Present(Texts(tags)) == tags
    ensures Plain(tags) ==> Free(Texts(tags), COMMA)
  {
    if forall t <- tags :: t.Some? {
      forall i | 0 <= i < |tags| ensures Present(Texts(tags))[i] == tags[i] {
        assert tags[i] in tags;
      }
    } else {
      var i :| 0 <= i < |tags| && tags[i].None?;
      assert Present(Texts(tags))[i] != tags[i];
    }
    if Plain(tags) {
      forall p | p in Texts(tags) ensures COMMA !in p {
        var i :| 0 <= i < |tags| && Texts(tags)[i] == p;
        assert tags[i] in tags;
      }
    }
  }

  lemma PresentFree(tags: seq<Option<string>>, parts: seq<string>)
    requires tags == Present(parts) && Free(parts, COMMA)
    ensures Plain(tags)
  {
    forall t | t in tags ensures t.Some? && COMMA !in t.value {
      var i :| 0 <= i < |tags| && tags[i] == t;
      assert parts[i] in parts;
    }
  }

  /** Splitting what was joined gives plain, non-empty tag sets back, and no others. */
  lemma SlimParts(tags: seq<Option<string>>)
    ensures Present(Split(Join(Texts(tags), COMMA), COMMA)) == tags <==> tags != [] && Plain(tags)
  {
    var s := Join(Texts(tags), COMMA);
    JoinSplit(s, COMMA);
    PresentTexts(tags);
    if tags != [] && Plain(tags) {
      SplitJoin(Texts(tags), COMMA);
    }
    if Present(Split(s, COMMA)) == tags {
      PresentFree(tags, Split(s, COMMA));
    }
  }

  /** The slim decoder inverts the encoder exactly on absent sets and on non-empty plain ones. */
  lemma SlimRoundTrip(tags: Tags)
    ensures DecodeSlim(Encode(tags)) == tags <==> tags.None? || (tags.value != [] && Plain(tags.value))
  {
    if tags.Some? {
      SlimParts(tags.value);
    }
  }

  /** The stored decoder inverts it exactly on absent, on empty, and on plain sets that start non-empty. */
  lemma StoredRoundTrip(tags: Tags)
    ensures DecodeStored(Encode(tags)) == tags <==>
            tags.None? || tags.value == [] || (Plain(tags.value) && tags.value[0] != Some(""))
  {
    if tags.Some? {
      var s := Join(Texts(tags.value), COMMA);
      SlimParts(tags.value);
      if tags.value != [] && Plain(tags.value) {
        assert Present(Split(s, COMMA))[0] == tags.value[0];
      }
    }
  }

  lemma {:induction false} NonEmptyKeeps(parts: seq<string>)
    ensures (forall p <- parts :: p != "") ==> NonEmpty(parts) == parts
    ensures forall p <- NonEmpty(parts) :: p != "" && p in parts
  {
    if parts != [] {
      NonEmptyKeeps(parts[1..]);
      assert parts == [parts[0]] + parts[1..] && parts[0] in parts;
      assert forall p <- parts[1..] :: p in parts;
    }
  }

  /** The scored decoder inverts it exactly on absent sets and on plain sets without empty tags. */
  lemma ScoredRoundTrip(tags: Tags)
    ensures DecodeScored(Encode(tags)) == tags <==>
            tags.None? || (Plain(tags.value) && forall t <- tags.value :: t != Some(""))
  {
    if tags.Some? {
      var ts := tags.value;
      var parts := Split(Join(Texts(ts), COMMA), COMMA);
      JoinSplit(Join(Texts(ts), COMMA), COMMA);
      NonEmptyKeeps(parts);
      SlimParts(ts);
      if Plain(ts) && (forall t <- ts :: t != Some("")) && ts != [] {
        assert Present(parts) == ts;
        forall p | p in parts ensures p != "" {
          var i :| 0 <= i < |parts| && parts[i] == p;
          assert ts[i] in ts;
        }
      }
      if ts == [] {
        assert parts == [""] && parts[1..] == [] && NonEmpty(parts) == [];
      }
      if Present(NonEmpty(parts)) == ts {
        PresentFree(ts, NonEmpty(parts));
        forall t | t in ts ensures t != Some("") {
          var i :| 0 <= i < |ts| && ts[i] == t;
          assert NonEmpty(parts)[i] in NonEmpty(parts);
        }
      }
    }
  }

  /** An absent tag is encoded as an empty one. */
  lemma AbsentIsEmpty(tags: seq<Option<string>>, i: nat)
    requires i < |tags| && tags[i].None?
    ensures Encode(Some(tags)) == Encode(Some(tags[i := Some("")]))
  {
    assert Texts(tags) == Texts(tags[i := Some("")]);
  }

  lemma {:induction false} NonEmptyConcat(a: seq<string>, b: seq<string>)
    ensures NonEmpty(a + b) == NonEmpty(a) + NonEmpty(b)
  {
    if a == [] {
      assert a + b == b;
    } else {
      assert (a + b)[1..] == a[1..] + b;
      NonEmptyConcat(a[1..], b);
    }
  }

  lemma ScoredOf(parts: seq<string>)
    requires parts != [] && Free(parts, COMMA)
    ensures DecodeScored(Some(Join(parts, COMMA))) == Some(Present(NonEmpty(parts)))
  {
    SplitJoin(parts, COMMA);
  }

  lemma NonEmptyOne(tag: string)
    ensures Present(NonEmpty([tag])) == if tag == "" then [] else [Some(tag)]
  {
    assert [tag][1..] == [];
  }

  /**
    What the scored decoder makes of a string: an empty tag between two pieces is as good as none,
    and a non-empty tag is kept in its place.
   */
  lemma ScoredDropsEmpty(a: seq<string>, tag: string, b: seq<string>, parts: seq<string>)
    requires parts == a + [tag] + b && Free(parts, COMMA)
    ensures DecodeScored(Some(Join(parts, COMMA))) ==
            Some(Present(NonEmpty(a)) + (if tag == "" then [] else [Some(tag)]) + Present(NonEmpty(b)))
  {
    hide *;
    ScoredOf(parts);
    NonEmptyOne(tag);
    NonEmptyConcat(a + [tag], b);
    NonEmptyConcat(a, [tag]);
    PresentConcat(NonEmpty(a) + NonEmpty([tag]), NonEmpty(b));
    PresentConcat(NonEmpty(a), NonEmpty([tag]));
  }

  lemma PresentConcat(a: seq<string>, b: seq<string>)
    ensures Present(a + b) == Present(a) + Present(b)
  {
  }

  /** The stored decoder makes an empty set of every string that starts with an empty tag. */
  lemma StoredEmpties(s: string)
    ensures DecodeStored(Some(s)) == Some([]) <==> s == "" || s[0] == COMMA
  {
    SplitStart(s);
  }

  // ---------------------------------------------------------------- which strings survive

  lemma TextsPresent(parts: seq<string>)
    ensures Texts(Present(parts)) == parts
  {
  }

  /** The slim decoder loses nothing of a stored string. */
  lemma SlimKeepsString(s: Option<string>)
    ensures Encode(DecodeSlim(s)) == s
  {
    if s.Some? {
      JoinSplit(s.value, COMMA);
      TextsPresent(Split(s.value, COMMA));
    }
  }

  lemma SplitStart(s: string)
    ensures Split(s, COMMA)[0] == "" <==> s == "" || s[0] == COMMA
  {
  }

  /** The stored decoder loses exactly the strings that start with a comma. */
  lemma StoredKeepsString(s: Option<string>)
    ensures Encode(DecodeStored(s)) == s <==> s.None? || s.value == "" || s.value[0] != COMMA
  {
    if s.Some? {
      JoinSplit(s.value, COMMA);
      TextsPresent(Split(s.value, COMMA));
      SplitStart(s.value);
    }
  }

  /** The scored decoder loses exactly the non-empty strings with an empty tag between their commas. */
  lemma ScoredKeepsString(s: Option<string>)
    ensures Encode(DecodeScored(s)) == s <==>
            s.None? || s.value == "" || forall p <- Split(s.value, COMMA) :: p != ""
  {
    if s.Some? {
      var parts := Split(s.value, COMMA);
      JoinSplit(s.value, COMMA);
      NonEmptyKeeps(parts);
      TextsPresent(NonEmpty(parts));
      if s.value == "" {
        assert NonEmpty([""]) == [];
      } else if Join(NonEmpty(parts), COMMA) == s.value {
        FreeSub(parts);
        SplitJoin(NonEmpty(parts), COMMA);
      }
    }
  }

  lemma FreeSub(parts: seq<string>)
    requires Free(parts, COMMA)
    ensures Free(NonEmpty(parts), COMMA)
  {
    NonEmptyKeeps(parts);
  }
}
