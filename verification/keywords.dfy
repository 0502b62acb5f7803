/**
 * The keyword field of the form (commextract.py:57) and its parsing at the start
 * of a run (commextract.py:169-173).
 */
module Keywords {
  import opened Text

  /** The field's initial contents (commextract.py:57), the string
      "commentary,director,filmmaker,crew,discussion,chat", spelled out word by word. */
  const DefaultField: string :=
    "commentary" + "," + ("director" + "," + ("filmmaker" + "," + ("crew" + "," + ("discussion" + "," + "chat"))))

  /** The keyword used when parsing yields nothing (commextract.py:173). */
  const FallbackKeyword: string := "commentary"

  /** `[k.strip().lower() for k in field.split(",")]`. */
  function ParseKeywords(field: string): (keywords: seq<string>)
    ensures |keywords| == |Split(field, ',')|
  {
    var parts := Split(field, ',');
    seq(|parts|, i requires 0 <= i < |parts| => Lower(Strip(parts[i])))
  }

  /** A keyword as parsing leaves it: no comma, no upper-case letter, no whitespace at either end. */
  predicate IsNormalKeyword(k: string) {
    ',' !in k && NoUpper(k) && IsStripped(k)
  }

  /** The keyword list a run uses: the parsed field, or `["commentary"]` if that were empty.
      The fallback is dead code: splitting always yields at least one piece. */
  function EffectiveKeywords(field: string): (keywords: seq<string>)
    ensures keywords == ParseKeywords(field)
  {
    var parsed := ParseKeywords(field);
    if parsed == [] then [FallbackKeyword] else parsed
  }

  /** One keyword per comma-separated segment, so never an empty list. */
  lemma KeywordCount(field: string)
    ensures |ParseKeywords(field)| == Count(field, ',') + 1
    ensures |ParseKeywords(field)| >= 1
  {
    SplitCount(field, ',');
  }

  /** Lower-casing a stripped string keeps it stripped. */
  lemma LowerKeepsStripped(s: string)
    requires IsStripped(s)
    ensures IsStripped(Lower(s))
  {
  }

  /** A segment free of commas gives a normal keyword. */
  lemma SegmentKeywordNormal(p: string)
    requires ',' !in p
    ensures IsNormalKeyword(Lower(Strip(p)))
  {
    var a, b := StripSlice(p);
    var t := Strip(p);
    assert ',' !in t by {
      forall i | 0 <= i < |t| ensures t[i] != ',' {
        assert t[i] == p[a + i];
      }
    }
    LowerProperties(t);
    LowerKeepsStripped(t);
    var l := Lower(t);
    forall i | 0 <= i < |l| ensures l[i] != ',' {
      assert l[i] == LowerChar(t[i]);
    }
  }

  /** Every parsed keyword is normal. */
  lemma KeywordsNormal(field: string)
    ensures forall k :: 0 <= k < |ParseKeywords(field)| ==> IsNormalKeyword(ParseKeywords(field)[k])
  {
    var parts := Split(field, ',');
    var ks := ParseKeywords(field);
    SplitPiecesFree(field, ',');
    forall k | 0 <= k < |ks| ensures IsNormalKeyword(ks[k]) {
      assert ks[k] == Lower(Strip(parts[k]));
      SegmentKeywordNormal(parts[k]);
    }
  }

  /** A normal keyword parses to itself. */
  lemma NormalKeywordFixed(k: string)
    requires IsNormalKeyword(k)
    ensures Lower(Strip(k)) == k
  {
    StripFixesStripped(k);
    LowerProperties(k);
  }

  /** Writing the parsed keywords back into the field, comma-separated, and parsing
      again gives the same list. */
  lemma ParseJoinParse(field: string)
    ensures ParseKeywords(Join(ParseKeywords(field), ',')) == ParseKeywords(field)
  {
    var ks := ParseKeywords(field);
    KeywordCount(field);
    KeywordsNormal(field);
    SplitJoin(ks, ',');
    var again := ParseKeywords(Join(ks, ','));
    forall i | 0 <= i < |ks| ensures again[i] == ks[i] {
      NormalKeywordFixed(ks[i]);
    }
  }

  /** An empty or all-blank field yields the single empty keyword. */
  lemma BlankFieldGivesEmptyKeyword(field: string)
    requires forall i :: 0 <= i < |field| ==> IsSpace(field[i])
    ensures ParseKeywords(field) == [""]
  {
    assert ',' !in field by {
      forall i | 0 <= i < |field| ensures field[i] != ',' {
        assert IsSpace(field[i]);
      }
    }
    SplitPiece(field, ',', "");
    StripBlank(field);
    var parts := Split(field, ',');
    assert parts == [field];
    var ks := ParseKeywords(field);
    assert |ks| == 1;
    assert ks[0] == Lower(Strip(parts[0])) == Lower("");
    assert |Lower("")| == 0;
  }

  /** A field ending in a comma yields the empty keyword last. */
  lemma TrailingCommaGivesEmptyKeyword(field: string)
    requires |field| > 0 && field[|field| - 1] == ','
    ensures ParseKeywords(field)[|ParseKeywords(field)| - 1] == ""
  {
    LastPieceSuffix(field, ',');
    LastPieceFree(field, ',');
  }

  const DefaultWords: seq<string> := ["commentary", "director", "filmmaker", "crew", "discussion", "chat"]

  lemma DefaultFieldIsJoin()
    ensures Join(DefaultWords, ',') == DefaultField
  {
    var words := DefaultWords;
    assert Join(words[5..], ',') == "chat" by {
      assert words[5..] == ["chat"];
    }
    assert words[4..] == ["discussion"] + words[5..];
    JoinCons("discussion", words[5..], ',');
    assert words[3..] == ["crew"] + words[4..];
    JoinCons("crew", words[4..], ',');
    assert words[2..] == ["filmmaker"] + words[3..];
    JoinCons("filmmaker", words[3..], ',');
    assert words[1..] == ["director"] + words[2..];
    JoinCons("director", words[2..], ',');
    assert words == ["commentary"] + words[1..];
    JoinCons("commentary", words[1..], ',');
  }

  lemma DefaultWordsNormal()
    ensures forall k :: 0 <= k < |DefaultWords| ==> IsNormalKeyword(DefaultWords[k])
  {
    forall k | 0 <= k < |DefaultWords| ensures IsNormalKeyword(DefaultWords[k]) {
      assert forall i :: 0 <= i < |DefaultWords[k]| ==> 'a' <= DefaultWords[k][i] <= 'z';
    }
  }

  /** The field's initial contents parse to its six words, in order. */
  lemma DefaultKeywords()
    ensures ParseKeywords(DefaultField) == DefaultWords
  {
    DefaultFieldIsJoin();
    DefaultWordsNormal();
    SplitJoin(DefaultWords, ',');
    forall k | 0 <= k < |DefaultWords| ensures Lower(Strip(DefaultWords[k])) == DefaultWords[k] {
      NormalKeywordFixed(DefaultWords[k]);
    }
  }
}
