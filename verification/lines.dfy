/**
 * One physical chat line and its classification (class `Line` and enum
 * `LineType` in yawab.py). Classification is first-match-wins: a video token,
 * then a voice token, then an image token, then the localized
 * "attachment removed" marker, and otherwise plain text.
 */
module Lines {
  import opened Wrappers
  import opened Strings

  /** `LineType`. `Link` is declared by the source but never produced. */
  datatype LineType = Skip | Text | Image | Video | Audio | Link

  datatype Line = Line(kind: LineType, content: Option<string>, fileName: Option<string>)

  /** The four localized strings the classifier looks up in the configuration. */
  datatype Placeholders = Placeholders(video: string, voice: string, image: string, attached: string)

  const VideoExt: string := "mp4"
  const AudioExt: string := "opus"
  const ImageExt: string := "jpg"

  /** The character class `[a-zA-Z0-9-_]`. */
  predicate IsWordChar(c: char)
  {
    'a' <= c <= 'z' || 'A' <= c <= 'Z' || '0' <= c <= '9' || c == '-' || c == '_'
  }

  /**
   * `s[b..e]` matches `([a-zA-Z0-9-_]+).ext`: a non-empty run of word
   * characters, then one character other than a newline (the dot is not
   * escaped), then the extension.
   */
  ghost predicate IsMediaMatch(s: string, b: nat, e: nat, ext: string)
  {
    b + |ext| + 2 <= e <= |s|
    && (forall i :: b <= i < e - |ext| - 1 ==> IsWordChar(s[i]))
    && s[e - |ext| - 1] != '\n'
    && s[e - |ext|..e] == ext
  }

  ghost predicate HasMediaMatch(s: string, ext: string)
  {
    exists b: nat, e: nat :: IsMediaMatch(s, b, e, ext)
  }

  /**
   * The match `re.search` reports: the leftmost start, and from it the longest
   * end (the `+` is greedy and gives back one character at a time).
   */
  ghost predicate IsFirstMatch(s: string, b: nat, e: nat, ext: string)
  {
    IsMediaMatch(s, b, e, ext)
    && forall b': nat, e': nat :: IsMediaMatch(s, b', e', ext) ==> b < b' || (b == b' && e' <= e)
  }

  /** `name` is `group(0)` of the search for `ext` in `s`. */
  ghost predicate NamesFirstMatch(s: string, name: Option<string>, ext: string)
  {
    name.Some? && exists b: nat, e: nat :: IsFirstMatch(s, b, e, ext) && name.value == s[b..e]
  }

  /** Length of the run of word characters starting at `i`. */
  function WordRun(s: string, i: nat): (n: nat)
    requires i <= |s|
    ensures i + n <= |s|
    ensures forall j :: i <= j < i + n ==> IsWordChar(s[j])
    ensures i + n == |s| || !IsWordChar(s[i + n])
    decreases |s| - i
  {
    if i < |s| && IsWordChar(s[i]) then 1 + WordRun(s, i + 1) else 0
  }

  /** The part of the pattern after the word run: any non-newline, then `ext`, at `p`. */
  predicate TailAt(s: string, p: nat, ext: string)
  {
    p + 1 + |ext| <= |s| && s[p] != '\n' && s[p + 1..p + 1 + |ext|] == ext
  }

  /** Greedy backtracking: try word runs of length `k`, `k - 1`, ..., 1 from `b`. */
  function Backtrack(s: string, b: nat, k: nat, ext: string): (r: Option<nat>)
    requires b + k <= |s|
    requires forall j :: b <= j < b + k ==> IsWordChar(s[j])
    ensures r.Some? ==> IsMediaMatch(s, b, r.value, ext)
    ensures forall e: nat :: IsMediaMatch(s, b, e, ext) && e <= b + k + 1 + |ext| ==> r.Some? && e <= r.value
    decreases k
  {
    if k == 0 then None
    else if TailAt(s, b + k, ext) then Some(b + k + 1 + |ext|)
    else Backtrack(s, b, k - 1, ext)
  }

  /** The longest match of the pattern that starts exactly at `b`. */
  function MatchAt(s: string, b: nat, ext: string): (r: Option<nat>)
    requires b <= |s|
    ensures r.Some? ==> IsMediaMatch(s, b, r.value, ext)
    ensures r.Some? ==> forall e: nat :: IsMediaMatch(s, b, e, ext) ==> e <= r.value
    ensures r.None? ==> forall e: nat :: !IsMediaMatch(s, b, e, ext)
  {
    Backtrack(s, b, WordRun(s, b), ext)
  }

  /** `re.search` for `([a-zA-Z0-9-_]+).ext`, looking at starts `i`, `i + 1`, ... */
  function SearchFrom(s: string, i: nat, ext: string): (r: Option<(nat, nat)>)
    requires i <= |s|
    ensures r.Some? ==> i <= r.value.0 && IsMediaMatch(s, r.value.0, r.value.1, ext)
    ensures r.Some? ==> forall b': nat, e': nat :: i <= b' && IsMediaMatch(s, b', e', ext) ==>
                          r.value.0 < b' || (r.value.0 == b' && e' <= r.value.1)
    ensures r.None? ==> forall b': nat, e': nat :: i <= b' ==> !IsMediaMatch(s, b', e', ext)
    decreases |s| - i
  {
    match MatchAt(s, i, ext)
    case Some(e) => Some((i, e))
    case None => if i == |s| then None else SearchFrom(s, i + 1, ext)
  }

  function Search(s: string, ext: string): (r: Option<(nat, nat)>)
    ensures r.Some? ==> IsFirstMatch(s, r.value.0, r.value.1, ext)
    ensures r.None? <==> !HasMediaMatch(s, ext)
  {
    SearchFrom(s, 0, ext)
  }

  /**
   * `Line.parse_line_content`: classify one trimmed line. Media lines carry
   * the localized placeholder as content and the matched token as file name.
   */
  function ParseLineContent(content: string, cfg: Placeholders): (r: Line)
    ensures r.kind != Link
  {
    match Search(content, VideoExt)
    case Some((b, e)) => Line(Video, Some(cfg.video), Some(content[b..e]))
    case None =>
      match Search(content, AudioExt)
      case Some((b, e)) => Line(Audio, Some(cfg.voice), Some(content[b..e]))
      case None =>
        match Search(content, ImageExt)
        case Some((b, e)) => Line(Image, Some(cfg.image), Some(content[b..e]))
        case None =>
          if Contains(content, cfg.attached) then Line(Skip, None, None)
          else Line(Text, Some(content), None)
  }

  /**
   * First match wins, in the order video, voice, image, attachment marker,
   * text; a media line carries the configured placeholder and the leftmost
   * match as file name, a text line the input unchanged.
   */
  lemma ParseLineContentSpec(content: string, cfg: Placeholders)
    ensures var r := ParseLineContent(content, cfg);
            && (r.kind == Video <==> HasMediaMatch(content, VideoExt))
            && (r.kind == Audio <==> !HasMediaMatch(content, VideoExt) && HasMediaMatch(content, AudioExt))
            && (r.kind == Image <==>
                  !HasMediaMatch(content, VideoExt) && !HasMediaMatch(content, AudioExt) && HasMediaMatch(content, ImageExt))
            && (r.kind == Skip <==>
                  !HasMediaMatch(content, VideoExt) && !HasMediaMatch(content, AudioExt) && !HasMediaMatch(content, ImageExt)
                  && IsSubstring(cfg.attached, content))
    ensures var r := ParseLineContent(content, cfg);
            && (r.kind == Video ==> r.content == Some(cfg.video) && NamesFirstMatch(content, r.fileName, VideoExt))
            && (r.kind == Audio ==> r.content == Some(cfg.voice) && NamesFirstMatch(content, r.fileName, AudioExt))
            && (r.kind == Image ==> r.content == Some(cfg.image) && NamesFirstMatch(content, r.fileName, ImageExt))
            && (r.kind == Skip ==> r.content == None && r.fileName == None)
            && (r.kind == Text ==> r.content == Some(content) && r.fileName == None)
  {
  }

  /** The extension a media kind is recognised by. */
  function MediaExt(kind: LineType): string
  {
    match kind
    case Video => VideoExt
    case Audio => AudioExt
    case Image => ImageExt
    case _ => ""
  }

  /** `name` has the shape `w + c + ext`: a non-empty word run, one non-newline character, the extension. */
  predicate IsMediaToken(name: string, ext: string)
  {
    |name| >= |ext| + 2
    && (forall i :: 0 <= i < |name| - |ext| - 1 ==> IsWordChar(name[i]))
    && name[|name| - |ext| - 1] != '\n'
    && name[|name| - |ext|..] == ext
  }

  /** A regex match cut out of the line is a `w + c + ext` token found in it. */
  lemma MatchIsMediaToken(s: string, b: nat, e: nat, ext: string)
    requires IsMediaMatch(s, b, e, ext)
    ensures IsSubstring(s[b..e], s) && IsMediaToken(s[b..e], ext)
  {
    var name := s[b..e];
    assert OccursAt(s, name, b);
    forall i | 0 <= i < |name| - |ext| - 1 ensures IsWordChar(name[i]) {
      assert name[i] == s[b + i];
    }
    assert name[|name| - |ext|..] == s[e - |ext|..e];
  }

  /** The file name reported for `ext` is a `w + c + ext` token of the line. */
  lemma NamedTokenShape(s: string, name: Option<string>, ext: string)
    requires NamesFirstMatch(s, name, ext)
    ensures name.Some? && IsSubstring(name.value, s) && IsMediaToken(name.value, ext)
  {
    var b: nat, e: nat :| IsFirstMatch(s, b, e, ext) && name.value == s[b..e];
    MatchIsMediaToken(s, b, e, ext);
  }

  /**
   * A media line's file name is a piece of the input of the form
   * `w + c + ext`; only media lines carry a file name.
   */
  lemma MediaFileNameShape(content: string, cfg: Placeholders)
    ensures var r := ParseLineContent(content, cfg);
            r.kind in {Video, Audio, Image} ==>
              r.fileName.Some? && IsSubstring(r.fileName.value, content) && IsMediaToken(r.fileName.value, MediaExt(r.kind))
    ensures var r := ParseLineContent(content, cfg);
            r.fileName.Some? <==> r.kind in {Video, Audio, Image}
  {
    ParseLineContentSpec(content, cfg);
    var r := ParseLineContent(content, cfg);
    if r.kind in {Video, Audio, Image} {
      NamedTokenShape(content, r.fileName, MediaExt(r.kind));
    }
  }
}
