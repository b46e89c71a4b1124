/** The command line's node paths: internal/transport/cli/helpers.go. The program rewrites the text until it is
    tidy and then splits it; the specification splits at once and drops what is empty. */
module NodePath {
  import opened Wrappers
  import opened GoText

  datatype PathError = PathRequired | ParentSegment

  datatype Path = Path(text: string, segments: seq<string>)

  /** strings.ReplaceAll(s, "\\", "/") */
  function Slashed(s: string): (r: string)
    ensures '\\' !in r
    ensures '\\' !in s ==> r == s
  {
    if s == "" then "" else [if s[0] == '\\' then '/' else s[0]] + Slashed(s[1..])
  }

  /** strings.Contains(s, "//") */
  predicate HasDoubleSlash(s: string) {
    exists i | 0 <= i < |s| - 1 :: s[i] == '/' && s[i + 1] == '/'
  }

  /** strings.ReplaceAll(s, "//", "/") */
  function Collapse(s: string): (r: string)
    ensures s != "" ==> r != "" && r[0] == s[0]
    ensures '\\' !in s ==> '\\' !in r
  {
    if s == "" then ""
    else if |s| >= 2 && s[0] == '/' && s[1] == '/' then "/" + Collapse(s[2..])
    else [s[0]] + Collapse(s[1..])
  }

  /** strings.TrimRight(s, "/") */
  function TrimSlashes(s: string): (r: string)
    ensures r <= s
  {
    if s != "" && s[|s| - 1] == '/' then TrimSlashes(s[..|s| - 1]) else s
  }

  /** strings.Split(s, "/") */
  function Split(s: string): (r: seq<string>)
    ensures |r| > 0
  {
    if s == "" then [""]
    else if s[0] == '/' then [""] + Split(s[1..])
    else var rest := Split(s[1..]); [[s[0]] + rest[0]] + rest[1..]
  }

  /** strings.Join(segments, "/") */
  function Join(segments: seq<string>): string {
    if |segments| == 0 then "" else if |segments| == 1 then segments[0] else segments[0] + "/" + Join(segments[1..])
  }

  function Print(segments: seq<string>): string {
    "/" + Join(segments)
  }

  predicate Dropped(segment: string) {
    segment == "" || segment == "."
  }

  /** A piece between two slashes counts once it is trimmed, unless it is then empty or a single dot. */
  function KeptPiece(piece: string): seq<string> {
    if Dropped(TrimSpace(piece)) then [] else [TrimSpace(piece)]
  }

  function Kept(pieces: seq<string>): seq<string> {
    if pieces == [] then [] else KeptPiece(pieces[0]) + Kept(pieces[1..])
  }

  /** What a path means: its non-empty words between slashes of either kind. */
  function Parse(raw: string): Result<Path, PathError> {
    var words := Kept(Split(Slashed(TrimSpace(raw))));
    if TrimSpace(raw) == "" then Err(PathRequired)
    else if ".." in words then Err(ParentSegment)
    else Ok(Path(Print(words), words))
  }

  predicate IsSegment(segment: string) {
    Trimmed(segment) && segment != "" && segment != "." && segment != ".." && '/' !in segment && '\\' !in segment
  }

  lemma {:induction false} CollapseShrinks(s: string)
    ensures |Collapse(s)| <= |s|
    ensures HasDoubleSlash(s) ==> |Collapse(s)| < |s|
  {
    if s == "" {
    } else if |s| >= 2 && s[0] == '/' && s[1] == '/' {
      CollapseShrinks(s[2..]);
    } else {
      CollapseShrinks(s[1..]);
      if HasDoubleSlash(s) {
        var i :| 0 <= i < |s| - 1 && s[i] == '/' && s[i + 1] == '/';
        assert s[1..][i - 1] == '/' && s[1..][i] == '/';
      }
    }
  }

  /** Collapsing double slashes keeps the first piece and every non-empty one. */
  lemma {:induction false} CollapseKeepsWords(s: string)
    ensures Split(Collapse(s))[0] == Split(s)[0]
    ensures Kept(Split(Collapse(s))[1..]) == Kept(Split(s)[1..])
  {
    if s == "" {
    } else if |s| >= 2 && s[0] == '/' && s[1] == '/' {
      CollapseKeepsWords(s[2..]);
      var a, b := Split(Collapse(s[2..])), Split(s[2..]);
      assert Collapse(s)[1..] == Collapse(s[2..]);
      assert Split(Collapse(s))[1..] == a;
      assert s[1..][1..] == s[2..];
      assert Split(s)[1..] == [""] + b;
      assert Kept([""] + b) == Kept(b) by {
        assert ([""] + b)[1..] == b;
      }
    } else {
      CollapseKeepsWords(s[1..]);
      var a, b := Split(Collapse(s[1..])), Split(s[1..]);
      assert Collapse(s)[1..] == Collapse(s[1..]);
      if s[0] == '/' {
        assert Split(Collapse(s))[1..] == a;
        assert Split(s)[1..] == b;
      } else {
        assert Split(Collapse(s))[1..] == a[1..];
        assert Split(s)[1..] == b[1..];
      }
    }
  }

  lemma Associative(a: seq<string>, b: seq<string>, c: seq<string>)
    ensures a + (b + c) == (a + b) + c
  {
  }

  lemma {:induction false} KeptAppend(a: seq<string>, b: seq<string>)
    ensures Kept(a + b) == Kept(a) + Kept(b)
  {
    hide KeptPiece;
    if a == [] {
      assert a + b == b;
    } else {
      KeptAppend(a[1..], b);
      assert (a + b)[0] == a[0] && (a + b)[1..] == a[1..] + b;
      Associative(KeptPiece(a[0]), Kept(a[1..]), Kept(b));
    }
  }

  lemma EmptyPieceIsDropped()
    ensures Kept([""]) == [] && Kept(["", ""]) == [] && Split("") == [""] && Split("/") == ["", ""]
  {
    assert KeptPiece("") == [];
    assert ["", ""][1..] == [""];
  }

  lemma LeadingSlash(s: string)
    ensures Split("/" + s) == [""] + Split(s) && Kept(Split("/" + s)) == Kept(Split(s))
  {
    assert KeptPiece("") == [];
    assert ("/" + s)[1..] == s;
    hide KeptPiece;
    assert ([""] + Split(s))[1..] == Split(s);
  }

  lemma {:induction false} SplitEndsInSlash(s: string)
    ensures Split(s + "/") == Split(s) + [""]
  {
    if s == "" {
      assert Split("/") == [""] + Split("");
    } else {
      SplitEndsInSlash(s[1..]);
      assert (s + "/")[1..] == s[1..] + "/";
    }
  }

  lemma {:induction false} TrimmingSlashesKeepsWords(s: string)
    ensures Kept(Split(TrimSlashes(s))) == Kept(Split(s))
  {
    hide Kept, Split;
    if s == "" || s[|s| - 1] != '/' {
    } else {
      EmptyPieceIsDropped();
      var t := s[..|s| - 1];
      TrimmingSlashesKeepsWords(t);
      assert s == t + "/";
      SplitEndsInSlash(t);
      KeptAppend(Split(t), [""]);
    }
  }

  lemma CollapseIsHarmless(s: string)
    requires s != "" && s[0] == '/'
    ensures Kept(Split(Collapse(s))) == Kept(Split(s)) && Collapse(s) != "" && Collapse(s)[0] == '/'
    ensures HasDoubleSlash(s) ==> |Collapse(s)| < |s|
  {
    CollapseShrinks(s);
    CollapseKeepsWords(s);
  }

  lemma KeptOneMore(a: seq<string>, piece: string, b: seq<string>)
    ensures Kept(a + [piece]) == Kept(a) + KeptPiece(piece)
    ensures Kept((a + [piece]) + b) == Kept(a + [piece]) + Kept(b)
  {
    assert Kept([piece]) == KeptPiece(piece) by { hide KeptPiece; }
    hide Kept, KeptPiece;
    KeptAppend(a, [piece]);
    KeptAppend(a + [piece], b);
  }

  lemma Prefixes(pieces: seq<string>, i: nat)
    requires i < |pieces|
    ensures pieces[..i + 1] == pieces[..i] + [pieces[i]]
    ensures pieces == pieces[..i] + [pieces[i]] + pieces[i + 1..]
  {
  }

  /** The loop over the pieces. */
  method KeepSegments(rawSegments: seq<string>) returns (r: Option<seq<string>>)
    requires rawSegments != [] && rawSegments[0] == ""
    ensures r.None? <==> ".." in Kept(rawSegments)
    ensures r.Some? ==> r.value == Kept(rawSegments)
  {
    assert KeptPiece("") == [];
    hide TrimSpace, Kept, Trimmed;
    var segments: seq<string> := [];
    for i := 0 to |rawSegments|
      invariant segments == Kept(rawSegments[..i])
      invariant ".." !in segments
    {
      Prefixes(rawSegments, i);
      KeptOneMore(rawSegments[..i], rawSegments[i], rawSegments[i + 1..]);
      if i == 0 {
        continue;
      }
      var segment := TrimSpace(rawSegments[i]);
      if segment == "" || segment == "." {
        continue;
      }
      segments := segments + [segment];
      if segment == ".." {
        assert segments[|segments| - 1] == "..";
        return None;
      }
    }
    assert rawSegments[..|rawSegments|] == rawSegments;
    r := Some(segments);
  }

  /** normalizeNodePath; the loop that removes double slashes ends because every pass shortens the text. */
  method NormalizeNodePath(raw: string) returns (r: Result<Path, PathError>)
    ensures r == Parse(raw)
  {
    hide Split, Kept, TrimSpace, Collapse, HasDoubleSlash, TrimSlashes, Slashed;
    EmptyPieceIsDropped();
    var trimmed := TrimSpace(raw);
    if trimmed == "" {
      return Err(PathRequired);
    }
    var normalized := Slashed(trimmed);
    ghost var words := Kept(Split(normalized));
    if normalized == "" || normalized[0] != '/' {
      LeadingSlash(normalized);
      normalized := "/" + normalized;
    }
    while HasDoubleSlash(normalized)
      invariant normalized != "" && normalized[0] == '/'
      invariant Kept(Split(normalized)) == words
      decreases |normalized|
    {
      CollapseIsHarmless(normalized);
      normalized := Collapse(normalized);
    }
    if normalized != "/" {
      TrimmingSlashesKeepsWords(normalized);
      normalized := TrimSlashes(normalized);
      if normalized == "" {
        normalized := "/";
      }
    }
    LeadingSlash(normalized[1..]);
    assert "/" + normalized[1..] == normalized;
    var segments := KeepSegments(Split(normalized));
    if segments.None? {
      return Err(ParentSegment);
    }
    var canonical := "/";
    if |segments.value| > 0 {
      canonical := "/" + Join(segments.value);
    }
    assert canonical == Print(segments.value);
    r := Ok(Path(canonical, segments.value));
  }

  lemma {:induction false} TrimSpaceOfPart(s: string, c: char)
    requires c !in s
    ensures c !in TrimSpace(s)
  {
    hide IsSpace;
    var left := TrimLeft(s);
    assert forall i | 0 <= i < |left| :: left[i] == s[|s| - |left| + i];
  }

  lemma {:induction false} SplitPieces(s: string, c: char)
    requires c == '/' || c !in s
    ensures forall piece | piece in Split(s) :: c !in piece
  {
    if s == "" {
    } else {
      SplitPieces(s[1..], c);
      assert forall piece | piece in Split(s) :: piece == Split(s)[0] || piece in Split(s[1..]);
    }
  }

  lemma {:induction false} KeptAreParts(pieces: seq<string>, c: char)
    requires forall piece | piece in pieces :: c !in piece
    ensures forall segment | segment in Kept(pieces) :: c !in segment && Trimmed(segment) && !Dropped(segment)
  {
    if pieces == [] {
    } else {
      assert forall segment | segment in KeptPiece(pieces[0]) ::
          c !in segment && Trimmed(segment) && !Dropped(segment) by {
        TrimSpaceOfPart(pieces[0], c);
        hide TrimSpace, Trimmed;
      }
      hide KeptPiece, Trimmed, Dropped;
      KeptAreParts(pieces[1..], c);
    }
  }

  /** An accepted path is printed from proper segments. */
  lemma ParsedIsValid(raw: string)
    requires Parse(raw).Ok?
    ensures forall segment | segment in Parse(raw).value.segments :: IsSegment(segment)
    ensures Parse(raw).value.text == Print(Parse(raw).value.segments)
  {
    hide Split, Kept, TrimSpace, Trimmed, Join;
    var text := Slashed(TrimSpace(raw));
    SplitPieces(text, '/');
    SplitPieces(text, '\\');
    KeptAreParts(Split(text), '/');
    KeptAreParts(Split(text), '\\');
  }

  lemma {:induction false} SplitAfterWord(word: string, rest: string)
    requires '/' !in word
    ensures Split(word + "/" + rest) == [word] + Split(rest)
  {
    if word == "" {
      assert word + "/" + rest == "/" + rest;
      assert ("/" + rest)[1..] == rest;
    } else {
      SplitAfterWord(word[1..], rest);
      assert (word + "/" + rest)[1..] == word[1..] + "/" + rest;
      assert [word[0]] + word[1..] == word;
    }
  }

  lemma {:induction false} SplitWord(word: string)
    requires '/' !in word
    ensures Split(word) == [word]
  {
    if word == "" {
    } else {
      SplitWord(word[1..]);
      assert [word[0]] + word[1..] == word;
    }
  }

  lemma {:induction false} SplitJoin(segments: seq<string>)
    requires |segments| > 0 && forall segment | segment in segments :: '/' !in segment
    ensures Split(Join(segments)) == segments
  {
    if |segments| == 1 {
      SplitWord(segments[0]);
    } else {
      SplitJoin(segments[1..]);
      SplitAfterWord(segments[0], Join(segments[1..]));
    }
  }

  lemma KeptPieceOfSegment(segment: string)
    requires IsSegment(segment)
    ensures KeptPiece(segment) == [segment]
  {
    hide IsSpace, TrimSpace, Trimmed;
    assert TrimSpace(segment) == segment;
  }

  lemma {:induction false} KeptOfValid(segments: seq<string>)
    requires forall segment | segment in segments :: IsSegment(segment)
    ensures Kept(segments) == segments
  {
    hide KeptPiece, IsSegment;
    if segments == [] {
    } else {
      KeptPieceOfSegment(segments[0]);
      KeptOfValid(segments[1..]);
      assert segments == [segments[0]] + segments[1..];
    }
  }

  /** A printed path has no outer spaces and no backslash. */
  lemma {:induction false} JoinIsClean(segments: seq<string>)
    requires |segments| > 0 && forall segment | segment in segments :: IsSegment(segment)
    ensures Join(segments) != "" && !IsSpace(Join(segments)[|Join(segments)| - 1]) && '\\' !in Join(segments)
  {
    assert segments[0] in segments && IsSegment(segments[0]);
    if |segments| > 1 {
      JoinIsClean(segments[1..]);
    }
  }

  lemma PrintIsClean(segments: seq<string>)
    requires forall segment | segment in segments :: IsSegment(segment)
    ensures Slashed(TrimSpace(Print(segments))) == Print(segments) != ""
  {
    hide Split, Kept, Slashed, TrimSpace, IsSegment;
    var text := Print(segments);
    assert !IsSpace('/');
    if segments != [] {
      JoinIsClean(segments);
    }
    hide Join, IsSpace;
    assert Trimmed(text) && '\\' !in text;
  }

  /** Printing any proper segments and parsing the text gives them back. */
  lemma PrintParses(segments: seq<string>)
    requires forall segment | segment in segments :: IsSegment(segment)
    ensures Parse(Print(segments)) == Ok(Path(Print(segments), segments))
  {
    assert forall segment | segment in segments :: '/' !in segment && segment != "..";
    var text := Print(segments);
    EmptyPieceIsDropped();
    LeadingSlash(Join(segments));
    hide Split, Kept, Slashed, TrimSpace, Join, IsSpace, IsSegment;
    if segments != [] {
      SplitJoin(segments);
      KeptOfValid(segments);
    }
    PrintIsClean(segments);
  }

  /** Normalising the canonical text again changes neither the text nor the segments. */
  lemma NormalFormIsStable(raw: string)
    requires Parse(raw).Ok?
    ensures Parse(Parse(raw).value.text) == Parse(raw)
  {
    ParsedIsValid(raw);
    PrintParses(Parse(raw).value.segments);
  }

  /** The canonical text identifies the path: equal texts have equal segments. */
  lemma TextIdentifiesPath(a: string, b: string)
    requires Parse(a).Ok? && Parse(b).Ok?
    ensures Parse(a).value.text == Parse(b).value.text <==> Parse(a).value.segments == Parse(b).value.segments
  {
    NormalFormIsStable(a);
    NormalFormIsStable(b);
  }
}
