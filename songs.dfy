/**
 * The song catalogue of api/songs.js: from the files of the media folder and
 * their modification times, the audio files become songs, newest first, each
 * with an id, a title and a cover found among the images by name.
 */
module Songs {
  import opened Options
  import opened Strings
  import opened Http

  // ---------------------------------------------------------------- data

  /** A hand-written entry of the override table. */
  datatype Override = Override(id: string, title: string, coverSrc: string)

  /** `SONG_OVERRIDES`, keyed by file name. */
  const Overrides: map<string, Override> := map[
    "alliwant.mp3" := Override("alliwant", "All I Want For Christmas Is You - Cover", "media/alliwant.png"),
    "diewa.mp3" := Override("diewa", "Die with a Smile - The Cover", "media/dwa.png"),
    "trt.mp3" := Override("trt", "Temu Rose Toy - KLICKAUD", "media/trt.png"),
    "trtp.mp3" := Override("trtp", "Temu Rose Toy - Performative Remix", "media/per.png"),
    "Arabian_Nights_Cover_KLICKAUD.mp3" := Override("arabian", "Arabian Nights - Cover", "media/arabian.png"),
    "Falling_For_Ya_Cover_KLICKAUD.mp3" := Override("falling", "Falling For Ya - Cover", "media/fallin.png"),
    "How_Far_Ill_Go_Cover_KLICKAUD.mp3" := Override("howfar", "How Far I'll Go - Cover", "media/howfar.png"),
    "Part_Of_Your_World_Cover_KLICKAUD.mp3" := Override("partofworld", "Part Of Your World - Cover", "media/part.png"),
    "Poor_Unfortunate_Souls_KLICKAUD.mp3" := Override("poor", "Poor Unfortunate Souls", "media/poor.png"),
    "Queen_of_Mean_Cover_KLICKAUD.mp3" := Override("queen", "Queen of Mean - Cover", "media/queen.png"),
    "Shes_So_Gone_Cover_KLICKAUD.mp3" := Override("shesogone", "She's So Gone - Cover", "media/shes.png"),
    "Yikes_KLICKAUD.mp3" := Override("yikes", "Yikes", "media/yikes.png")
  ]

  /** A cover: the built-in placeholder picture, or the address of an image. */
  datatype Cover = DefaultCover | CoverPath(src: string)

  /** One song of the catalogue. */
  datatype Song = Song(id: string, title: string, audioSrc: string, cover: Cover, filename: string)

  /** An audio file with its modification time in milliseconds. */
  datatype AudioEntry = AudioEntry(audioFile: string, mtime: int)

  /** An image file, its name without extension, and that name normalised. */
  datatype ImageMeta = ImageMeta(img: string, base: string, norm: string)

  /** The JSON bodies the handler sends. */
  datatype Payload = SongList(songs: seq<Song>) | Error(message: string)

  const FetchFailed := "Failed to fetch songs"

  // ---------------------------------------------------------------- file names

  predicate EndsWith(s: string, suffix: string) {
    |suffix| <= |s| && s[|s| - |suffix|..] == suffix
  }

  /** The audio filter: `.mp3`, `.wav` or `.m4a`, case as written. An audio name ends with a dot and three characters. */
  function IsAudioFile(name: string): (b: bool)
    ensures b ==> 4 <= |name| && name[|name| - 4] == '.'
  {
    EndsWith(name, ".mp3") || EndsWith(name, ".wav") || EndsWith(name, ".m4a")
  }

  /** No file is both a song and a picture. */
  lemma AudioIsNotImage(name: string)
    requires IsAudioFile(name)
    ensures !IsImageFile(name)
  {
    LastOfEndsWith(name, ".mp3");
    LastOfEndsWith(name, ".wav");
    LastOfEndsWith(name, ".m4a");
    LastOfEndsWith(name, ".png");
    LastOfEndsWith(name, ".jpg");
    LastOfEndsWith(name, ".jpeg");
    LastOfEndsWith(name, ".webp");
  }

  lemma LastOfEndsWith(s: string, suffix: string)
    ensures EndsWith(s, suffix) && suffix != [] ==> s[|s| - 1] == suffix[|suffix| - 1]
  {
    if EndsWith(s, suffix) && suffix != [] {
      assert s[|s| - |suffix|..][|suffix| - 1] == s[|s| - 1];
    }
  }

  /** The image filter: `.png`, `.jpg`, `.jpeg` or `.webp`, case as written. An image name ends with a dot and three or four characters. */
  function IsImageFile(name: string): (b: bool)
    ensures b ==> 4 <= |name| && (name[|name| - 4] == '.' || (5 <= |name| && name[|name| - 5] == '.'))
  {
    EndsWith(name, ".png") || EndsWith(name, ".jpg") || EndsWith(name, ".jpeg") || EndsWith(name, ".webp")
  }

  /** Every name that passes the image filter ends with one of the suffixes the base-name pattern removes. */
  lemma ImageSuffixMatch(name: string)
    requires IsImageFile(name)
    ensures exists i :: 0 <= i < |ImageSuffixes| && EndsWithIgnoringCase(name, ImageSuffixes[i])
  {
    var sufs := ImageSuffixes;
    var i := if EndsWith(name, ".png") then 0 else if EndsWith(name, ".jpg") then 1
      else if EndsWith(name, ".jpeg") then 2 else 3;
    assert EndsWith(name, sufs[i]);
    EndsWithIsEndsWithIgnoringCase(name, sufs[i]);
  }

  /** `files.filter(keep)`: the names that pass, in listing order. */
  function Select(files: seq<string>, keep: string -> bool): (r: seq<string>)
    ensures forall f :: f in r <==> f in files && keep(f)
    ensures |r| <= |files|
  {
    if files == [] then []
    else (if keep(files[0]) then [files[0]] else []) + Select(files[1..], keep)
  }

  predicate EndsWithIgnoringCase(s: string, suffix: string) {
    |suffix| <= |s| && MatchesAtIgnoringCase(s, suffix, |s| - |suffix|)
  }

  /**
   * `name.replace(/\.(a|b|...)$/i, '')`: the name without the first listed
   * suffix it ends with, letters compared without case. No two of the
   * suffixes used here can end the same name, so the order does not matter.
   */
  function StripSuffix(name: string, suffixes: seq<string>): (r: string)
    ensures r <= name
    ensures (forall i :: 0 <= i < |suffixes| ==> !EndsWithIgnoringCase(name, suffixes[i])) ==> r == name
    ensures (exists i :: 0 <= i < |suffixes| && EndsWithIgnoringCase(name, suffixes[i])) ==>
      exists i :: 0 <= i < |suffixes| && EndsWithIgnoringCase(name, suffixes[i]) && r == name[..|name| - |suffixes[i]|]
  {
    if suffixes == [] then name
    else if EndsWithIgnoringCase(name, suffixes[0]) then name[..|name| - |suffixes[0]|]
    else
      var r := StripSuffix(name, suffixes[1..]);
      assert forall i :: 1 <= i < |suffixes| ==> suffixes[1..][i - 1] == suffixes[i];
      r
  }

  const AudioSuffixes: seq<string> := [".mp3", ".wav", ".m4a"]
  const ImageSuffixes: seq<string> := [".png", ".jpg", ".jpeg", ".webp"]

  lemma EndsWithIsEndsWithIgnoringCase(s: string, suffix: string)
    requires EndsWith(s, suffix)
    ensures EndsWithIgnoringCase(s, suffix)
  {
  }

  /** When every suffix has length `n` and one of them ends the name, stripping cuts exactly `n` characters. */
  lemma StripSuffixOfLength(name: string, suffixes: seq<string>, n: nat, i: nat)
    requires forall j :: 0 <= j < |suffixes| ==> |suffixes[j]| == n
    requires i < |suffixes| && EndsWithIgnoringCase(name, suffixes[i])
    ensures n <= |name| && StripSuffix(name, suffixes) == name[..|name| - n]
  {
    var j :| 0 <= j < |suffixes| && EndsWithIgnoringCase(name, suffixes[j])
      && StripSuffix(name, suffixes) == name[..|name| - |suffixes[j]|];
  }

  lemma AudioSuffixesHaveLengthFour()
    ensures |AudioSuffixes| == 3
    ensures forall i :: 0 <= i < |AudioSuffixes| ==> |AudioSuffixes[i]| == 4
  {
    var sufs := AudioSuffixes;
    assert |sufs[0]| == 4 && |sufs[1]| == 4 && |sufs[2]| == 4;
  }

  /** The base name of an audio file is the file name without its four-character extension. */
  lemma BaseNameOfAudioFile(name: string)
    requires IsAudioFile(name)
    ensures StripSuffix(name, AudioSuffixes) == name[..|name| - 4]
  {
    var i := AudioSuffixMatch(name);
    AudioSuffixesHaveLengthFour();
    StripSuffixOfLength(name, AudioSuffixes, 4, i);
  }

  /** The audio suffix an audio file name ends with. */
  lemma AudioSuffixMatch(name: string) returns (i: nat)
    requires IsAudioFile(name)
    ensures i < |AudioSuffixes| && EndsWithIgnoringCase(name, AudioSuffixes[i])
  {
    var sufs := AudioSuffixes;
    i := if EndsWith(name, ".mp3") then 0 else if EndsWith(name, ".wav") then 1 else 2;
    assert EndsWith(name, sufs[i]);
    EndsWithIsEndsWithIgnoringCase(name, sufs[i]);
  }

  // ---------------------------------------------------------------- normalised names

  /** The complement of `[a-z0-9]`. */
  predicate NotLowerAlnum(c: char) { !IsLowerAlnum(c) }

  /**
   * `normalizeName(s)`: lower-cased, every run of characters outside
   * `[a-z0-9]` made one space, and trimmed.
   */
  function NormalizeName(s: string): (r: string)
    ensures forall i :: 0 <= i < |r| ==> IsLowerAlnum(r[i]) || r[i] == ' '
    ensures forall i :: 0 <= i < |r| - 1 ==> !(r[i] == ' ' && r[i + 1] == ' ')
    ensures r == [] || (r[0] != ' ' && r[|r| - 1] != ' ')
  {
    var c := CollapseRuns(ToLower(s), NotLowerAlnum);
    TrimOfCollapsed(c, IsLowerAlnum);
    Trim(c)
  }

  /** Trimming text of characters in `ok` and single spaces keeps it so, with no space at either end. */
  lemma TrimOfCollapsed(c: string, ok: char -> bool)
    requires forall i :: 0 <= i < |c| ==> ok(c[i]) || c[i] == ' '
    requires forall i :: 0 <= i < |c| - 1 ==> !(c[i] == ' ' && c[i + 1] == ' ')
    ensures var r := Trim(c);
      && (forall i :: 0 <= i < |r| ==> ok(r[i]) || r[i] == ' ')
      && (forall i :: 0 <= i < |r| - 1 ==> !(r[i] == ' ' && r[i + 1] == ' '))
      && (r == [] || (r[0] != ' ' && r[|r| - 1] != ' '))
  {
    var k, n := TrimBounds(c);
    CollapsedSlice(c, k, n, ok);
    TrimmedEndsAreNotSpaces(c);
  }

  lemma CollapsedSlice(c: string, k: nat, n: nat, ok: char -> bool)
    requires k + n <= |c|
    requires forall i :: 0 <= i < |c| ==> ok(c[i]) || c[i] == ' '
    requires forall i :: 0 <= i < |c| - 1 ==> !(c[i] == ' ' && c[i + 1] == ' ')
    ensures var r := c[k..k + n];
      && (forall i :: 0 <= i < |r| ==> ok(r[i]) || r[i] == ' ')
      && (forall i :: 0 <= i < |r| - 1 ==> !(r[i] == ' ' && r[i + 1] == ' '))
  {
    var r := c[k..k + n];
    assert forall i :: 0 <= i < |r| ==> r[i] == c[k + i];
  }

  /** `baseName.toLowerCase().replace(/[^a-z0-9]/g, '')` */
  function SongId(baseName: string): (r: string)
    ensures forall i :: 0 <= i < |r| ==> IsLowerAlnum(r[i])
  {
    AlnumOnly(ToLower(baseName))
  }

  lemma {:induction false} AlnumOnlyCollapse(s: string)
    ensures AlnumOnly(CollapseRuns(s, NotLowerAlnum)) == AlnumOnly(s)
    decreases |s|
  {
    if s == [] {
    } else if IsLowerAlnum(s[0]) {
      var rest := CollapseRuns(s[1..], NotLowerAlnum);
      assert CollapseRuns(s, NotLowerAlnum) == [s[0]] + rest;
      assert ([s[0]] + rest)[1..] == rest;
      AlnumOnlyCollapse(s[1..]);
    } else {
      var d := DropRun(s, NotLowerAlnum);
      assert CollapseRuns(s, NotLowerAlnum) == [' '] + CollapseRuns(d, NotLowerAlnum);
      assert ([' '] + CollapseRuns(d, NotLowerAlnum))[1..] == CollapseRuns(d, NotLowerAlnum);
      AlnumOnlyCollapse(d);
      var k := |s| - |d|;
      assert s == s[..k] + d;
      AlnumOnlyAppend(s[..k], d);
      AlnumOnlyNone(s[..k]);
    }
  }

  /** White space is never a letter or a digit, so filtering drops it. */
  lemma AlnumOnlySpaces(s: string)
    requires AllSpaces(s)
    ensures AlnumOnly(s) == []
  {
    assert forall i :: 0 <= i < |s| ==> !IsLowerAlnum(s[i]) by {
      forall i | 0 <= i < |s|
        ensures !IsLowerAlnum(s[i])
      {
        var ch := s[i];
        assert IsJsSpace(ch);
      }
    }
    AlnumOnlyNone(s);
  }

  /** Letters and digits between two stretches of white space are all the filter keeps. */
  lemma AlnumOnlyPadded(front: string, m: string, back: string)
    requires AllSpaces(front) && AllSpaces(back)
    ensures AlnumOnly(front + m + back) == AlnumOnly(m)
  {
    AlnumOnlySpaces(front);
    AlnumOnlySpaces(back);
    AlnumOnlyAppend(front + m, back);
    AlnumOnlyAppend(front, m);
  }

  /** A slice with only white space around it keeps every letter and digit. */
  lemma AlnumOnlySlice(c: string, k: nat, n: nat)
    requires k + n <= |c|
    requires AllSpaces(c[..k]) && AllSpaces(c[k + n..])
    ensures AlnumOnly(c[k..k + n]) == AlnumOnly(c)
  {
    SplitThree(c, k, n);
    AlnumOnlyPadded(c[..k], c[k..k + n], c[k + n..]);
  }

  /** Trimming removes no letter or digit. */
  lemma AlnumOnlyTrim(c: string)
    ensures AlnumOnly(Trim(c)) == AlnumOnly(c)
  {
    var k, n := TrimBounds(c);
    AlnumOnlySlice(c, k, n);
  }

  /** The id is the normalised name with its spaces taken out: both keep the same letters and digits. */
  lemma SongIdIsNormalizedNameWithoutSpaces(baseName: string)
    ensures AlnumOnly(NormalizeName(baseName)) == SongId(baseName)
  {
    AlnumOnlyTrim(CollapseRuns(ToLower(baseName), NotLowerAlnum));
    AlnumOnlyCollapse(ToLower(baseName));
  }

  lemma NoDashesLeft(baseName: string)
    ensures var t := ReplaceChar(ReplaceChar(baseName, '_', ' '), '-', ' ');
      '_' !in t && '-' !in t
  {
    var t1 := ReplaceChar(baseName, '_', ' ');
    var t2 := ReplaceChar(t1, '-', ' ');
    assert forall i :: 0 <= i < |t1| ==> t1[i] != '_';
    assert forall i :: 0 <= i < |t2| ==> t2[i] != '_' && t2[i] != '-';
  }

  predicate NotJsSpace(c: char) { !IsJsSpace(c) }

  /**
   * `baseName.replace(/_/g, ' ').replace(/-/g, ' ').replace(/\s+/g, ' ').trim()`:
   * words separated by single spaces, with no `_`, no `-`, no other white
   * space and nothing blank at either end.
   */
  function SpacedTitle(baseName: string): (r: string)
    ensures forall i :: 0 <= i < |r| ==> r[i] != '_' && r[i] != '-'
    ensures forall i :: 0 <= i < |r| ==> IsJsSpace(r[i]) ==> r[i] == ' '
    ensures forall i :: 0 <= i < |r| - 1 ==> !(r[i] == ' ' && r[i + 1] == ' ')
    ensures r == [] || (r[0] != ' ' && r[|r| - 1] != ' ')
  {
    var t2 := ReplaceChar(ReplaceChar(baseName, '_', ' '), '-', ' ');
    var c := CollapseRuns(t2, IsJsSpace);
    var r := Trim(c);
    NoDashesLeft(baseName);
    CollapsedTitleNoDashes(t2, c, r);
    CollapsedTitleSpacing(c, r);
    r
  }

  /** Collapsing the white space of a text, then trimming, gives words separated by single spaces. */
  lemma CollapsedTitleSpacing(c: string, r: string)
    requires forall i :: 0 <= i < |c| ==> c[i] == ' ' || !IsJsSpace(c[i])
    requires forall i :: 0 <= i < |c| - 1 ==> !(c[i] == ' ' && c[i + 1] == ' ')
    requires r == Trim(c)
    ensures forall i :: 0 <= i < |r| ==> IsJsSpace(r[i]) ==> r[i] == ' '
    ensures forall i :: 0 <= i < |r| - 1 ==> !(r[i] == ' ' && r[i + 1] == ' ')
    ensures r == [] || (r[0] != ' ' && r[|r| - 1] != ' ')
  {
    assert forall i :: 0 <= i < |c| ==> NotJsSpace(c[i]) || c[i] == ' ';
    TrimOfCollapsed(c, NotJsSpace);
  }

  /** Collapsing and trimming bring in no `_` and no `-`. */
  lemma CollapsedTitleNoDashes(t: string, c: string, r: string)
    requires '_' !in t && '-' !in t
    requires c == CollapseRuns(t, IsJsSpace) && r == Trim(c)
    ensures forall i :: 0 <= i < |r| ==> r[i] != '_' && r[i] != '-'
  {
    assert '_' !in c && '-' !in c by {
      CollapseKeepsAbsent(t, IsJsSpace, '_');
      CollapseKeepsAbsent(t, IsJsSpace, '-');
    }
    assert '_' !in r && '-' !in r by {
      TrimKeepsAbsent(c, '_');
      TrimKeepsAbsent(c, '-');
    }
    assert forall i :: 0 <= i < |r| ==> r[i] in r;
  }

  /**
   * The title of a song without an override: the spaced title with
   * `_Cover_KLICKAUD`, then `_KLICKAUD`, then `KLICKAUD` cut out once each
   * (letters compared without case) and trimmed again; the file name when
   * nothing is left.
   */
  function Title(audioFile: string, baseName: string): (r: string)
    ensures audioFile != [] ==> r != []
  {
    var t := SpacedTitle(baseName);
    var u := Trim(RemoveFirstIgnoringCase(
      RemoveFirstIgnoringCase(RemoveFirstIgnoringCase(t, "_Cover_KLICKAUD"), "_KLICKAUD"), "KLICKAUD"));
    if u == [] then audioFile else u
  }

  /**
   * Once underscores are spaces, the `_Cover_KLICKAUD` and `_KLICKAUD` cuts
   * never find anything: only the plain `KLICKAUD` cut changes the title.
   */
  lemma UnderscoreCutsChangeNothing(audioFile: string, baseName: string)
    ensures var u := Trim(RemoveFirstIgnoringCase(SpacedTitle(baseName), "KLICKAUD"));
      Title(audioFile, baseName) == if u == [] then audioFile else u
  {
    var t := SpacedTitle(baseName);
    assert RemoveFirstIgnoringCase(t, "_Cover_KLICKAUD") == t by {
      UnderscoreCutFindsNothing(t, "_Cover_KLICKAUD");
    }
    assert RemoveFirstIgnoringCase(t, "_KLICKAUD") == t by {
      UnderscoreCutFindsNothing(t, "_KLICKAUD");
    }
  }

  /** A pattern that starts with `_` is never found in a text without one. */
  lemma UnderscoreCutFindsNothing(t: string, pat: string)
    requires pat != [] && pat[0] == '_'
    requires forall i :: 0 <= i < |t| ==> t[i] != '_'
    ensures RemoveFirstIgnoringCase(t, pat) == t
  {
    assert forall i :: 0 <= i < |t| ==> AsciiUpper(t[i]) != AsciiUpper(pat[0]);
    RemoveAbsentIgnoringCase(t, pat);
  }

  // ---------------------------------------------------------------- covers

  /**
   * `imageMeta` for one image: the base name is the image name up to the dot
   * of its extension, and the normalised name holds only `[a-z0-9]` and
   * single spaces.
   */
  function ImageMetaOf(img: string): (m: ImageMeta)
    ensures m.img == img && m.base <= img
    ensures IsImageFile(img) ==> |m.base| < |img| && img[|m.base|] == '.'
    ensures forall i :: 0 <= i < |m.norm| ==> IsLowerAlnum(m.norm[i]) || m.norm[i] == ' '
  {
    var base := StripSuffix(img, ImageSuffixes);
    ImageBaseEndsAtDot(img);
    ImageMeta(img, base, NormalizeName(base))
  }

  /** The base name of an image file stops where its extension's dot is. */
  lemma ImageBaseEndsAtDot(img: string)
    ensures IsImageFile(img) ==>
      |StripSuffix(img, ImageSuffixes)| < |img| && img[|StripSuffix(img, ImageSuffixes)|] == '.'
  {
    if IsImageFile(img) {
      var sufs := ImageSuffixes;
      assert sufs[0][0] == '.' && sufs[1][0] == '.' && sufs[2][0] == '.' && sufs[3][0] == '.';
      ImageSuffixMatch(img);
      CutAtDot(img, sufs);
    }
  }

  /** When every suffix starts with a dot, stripping one cuts the name at a dot. */
  lemma CutAtDot(name: string, suffixes: seq<string>)
    requires forall i :: 0 <= i < |suffixes| ==> suffixes[i] != [] && suffixes[i][0] == '.'
    requires exists i :: 0 <= i < |suffixes| && EndsWithIgnoringCase(name, suffixes[i])
    ensures |StripSuffix(name, suffixes)| < |name| && name[|StripSuffix(name, suffixes)|] == '.'
  {
    var i :| 0 <= i < |suffixes| && EndsWithIgnoringCase(name, suffixes[i])
      && StripSuffix(name, suffixes) == name[..|name| - |suffixes[i]|];
    var j := |name| - |suffixes[i]|;
    assert AsciiUpper(name[j + 0]) == AsciiUpper(suffixes[i][0]);
  }

  /** The cover test: a non-empty normalised image name inside the audio name, or the other way round. */
  predicate CoverMatches(m: ImageMeta, normAudio: string) {
    m.norm != [] && (Contains(normAudio, m.norm) || Contains(m.norm, normAudio))
  }

  /** `imageMeta.find(...)`, as the position of the first image that matches. */
  function FindCover(images: seq<ImageMeta>, normAudio: string): (r: Option<nat>)
    ensures r.Some? ==> r.value < |images| && CoverMatches(images[r.value], normAudio)
    ensures r.Some? ==> forall j :: 0 <= j < r.value ==> !CoverMatches(images[j], normAudio)
    ensures r.None? ==> forall j :: 0 <= j < |images| ==> !CoverMatches(images[j], normAudio)
  {
    if images == [] then None
    else if CoverMatches(images[0], normAudio) then Some(0)
    else match FindCover(images[1..], normAudio)
      case None => None
      case Some(i) => Some(i + 1)
  }

  /** The cover of a song without an override: the placeholder, or `media/` and one of the listed images. */
  function CoverFor(images: seq<ImageMeta>, baseName: string): (c: Cover)
    ensures c.CoverPath? ==> exists i :: 0 <= i < |images| && c.src == "media/" + images[i].img
  {
    var found := FindCover(images, NormalizeName(baseName));
    if found.None? then DefaultCover
    else
      var i := found.value;
      assert i < |images|;
      CoverPath("media/" + images[i].img)
  }

  // ---------------------------------------------------------------- songs

  /** One element of `songs`: the override when there is one, the derived id, title and cover otherwise. */
  function SongFor(audioFile: string, images: seq<ImageMeta>): (s: Song)
    ensures s.audioSrc == "media/" + audioFile && s.filename == audioFile
    ensures audioFile in Overrides ==>
      var o := Overrides[audioFile];
      s.id == o.id && s.title == o.title && s.cover == (if o.coverSrc != [] then CoverPath(o.coverSrc) else DefaultCover)
    ensures audioFile !in Overrides ==>
      var baseName := StripSuffix(audioFile, AudioSuffixes);
      && s.id == SongId(baseName)
      && s.title == Title(audioFile, baseName)
      && s.cover == CoverFor(images, baseName)
  {
    var audioSrc := "media/" + audioFile;
    if audioFile in Overrides then
      var o := Overrides[audioFile];
      Song(o.id, o.title, audioSrc, if o.coverSrc != [] then CoverPath(o.coverSrc) else DefaultCover, audioFile)
    else
      var baseName := StripSuffix(audioFile, AudioSuffixes);
      Song(SongId(baseName), Title(audioFile, baseName), audioSrc, CoverFor(images, baseName), audioFile)
  }

  /** A found cover is the first image of the listing whose name matches. */
  lemma CoverIsFirstMatch(images: seq<ImageMeta>, baseName: string)
    requires CoverFor(images, baseName).CoverPath?
    ensures var normAudio := NormalizeName(baseName);
      exists i :: 0 <= i < |images| && CoverFor(images, baseName).src == "media/" + images[i].img
        && CoverMatches(images[i], normAudio)
        && forall j :: 0 <= j < i ==> !CoverMatches(images[j], normAudio)
  {
    var i := FindCover(images, NormalizeName(baseName)).value;
    assert CoverFor(images, baseName).src == "media/" + images[i].img;
  }

  /** The placeholder is used exactly when no image matches. */
  lemma CoverIsDefaultWhenNothingMatches(images: seq<ImageMeta>, baseName: string)
    ensures CoverFor(images, baseName) == DefaultCover <==>
      forall j :: 0 <= j < |images| ==> !CoverMatches(images[j], NormalizeName(baseName))
  {
    var normAudio := NormalizeName(baseName);
    if FindCover(images, normAudio).Some? {
      var i := FindCover(images, normAudio).value;
      assert !CoverMatches(images[i], normAudio) ==> false;
    }
  }

  /** `songs` for entries already in catalogue order. */
  function SongsOf(entries: seq<AudioEntry>, images: seq<ImageMeta>): (songs: seq<Song>)
    ensures |songs| == |entries|
    ensures forall i :: 0 <= i < |entries| ==> songs[i] == SongFor(entries[i].audioFile, images)
  {
    seq(|entries|, i requires 0 <= i < |entries| => SongFor(entries[i].audioFile, images))
  }

  // ---------------------------------------------------------------- newest first

  /**
   * `x` placed into `t` the way a stable sort on `b.mtime - a.mtime` places
   * an element that came first: after the strictly newer ones only.
   */
  function InsertNewest(x: AudioEntry, t: seq<AudioEntry>): (r: seq<AudioEntry>)
    ensures |r| == |t| + 1
  {
    if t == [] || t[0].mtime <= x.mtime then [x] + t
    else [t[0]] + InsertNewest(x, t[1..])
  }

  lemma {:induction false} InsertNewestPermutes(x: AudioEntry, t: seq<AudioEntry>)
    ensures multiset(InsertNewest(x, t)) == multiset(t) + multiset{x}
  {
    if t != [] && t[0].mtime > x.mtime {
      InsertNewestPermutes(x, t[1..]);
      assert t == [t[0]] + t[1..];
    }
  }

  /** The order `audioEntries.sort((a, b) => b.stat.mtimeMs - a.stat.mtimeMs)` leaves the entries in. */
  function NewestFirst(s: seq<AudioEntry>): (r: seq<AudioEntry>)
    ensures multiset(r) == multiset(s)
  {
    if s == [] then []
    else
      assert s == [s[0]] + s[1..];
      InsertNewestPermutes(s[0], NewestFirst(s[1..]));
      InsertNewest(s[0], NewestFirst(s[1..]))
  }

  predicate IsNewestFirst(s: seq<AudioEntry>) {
    forall i, j :: 0 <= i < j < |s| ==> s[i].mtime >= s[j].mtime
  }

  /** Inserting an entry no newer than a bound into entries no newer than it keeps them all within it. */
  lemma {:induction false} InsertNewestBounded(x: AudioEntry, t: seq<AudioEntry>, bound: int)
    requires x.mtime <= bound
    requires forall q :: 0 <= q < |t| ==> t[q].mtime <= bound
    ensures forall q :: 0 <= q < |InsertNewest(x, t)| ==> InsertNewest(x, t)[q].mtime <= bound
  {
    if t != [] && t[0].mtime > x.mtime {
      var rest := InsertNewest(x, t[1..]);
      assert forall q :: 0 <= q < |rest| ==> rest[q].mtime <= bound by {
        InsertNewestBounded(x, t[1..], bound);
      }
      var r := [t[0]] + rest;
      assert forall q :: 0 < q < |r| ==> r[q] == rest[q - 1];
    }
  }

  lemma {:induction false} InsertNewestKeepsOrder(x: AudioEntry, t: seq<AudioEntry>)
    requires IsNewestFirst(t)
    ensures IsNewestFirst(InsertNewest(x, t))
  {
    if t != [] && t[0].mtime > x.mtime {
      var rest := InsertNewest(x, t[1..]);
      assert IsNewestFirst(rest) by {
        assert IsNewestFirst(t[1..]);
        InsertNewestKeepsOrder(x, t[1..]);
      }
      assert forall q :: 0 <= q < |rest| ==> rest[q].mtime <= t[0].mtime by {
        InsertNewestBounded(x, t[1..], t[0].mtime);
      }
      var r := [t[0]] + rest;
      forall i, j | 0 <= i < j < |r|
        ensures r[i].mtime >= r[j].mtime
      {
        assert r[j] == rest[j - 1];
        if i > 0 {
          assert r[i] == rest[i - 1];
        }
      }
    }
  }

  /** Newest first: no entry comes before a strictly newer one. */
  lemma {:induction false} NewestFirstIsOrdered(s: seq<AudioEntry>)
    ensures IsNewestFirst(NewestFirst(s))
  {
    if s != [] {
      NewestFirstIsOrdered(s[1..]);
      InsertNewestKeepsOrder(s[0], NewestFirst(s[1..]));
    }
  }

  /** The entries of `s` modified at time `m`, in order. */
  function ModifiedAt(s: seq<AudioEntry>, m: int): seq<AudioEntry> {
    if s == [] then [] else (if s[0].mtime == m then [s[0]] else []) + ModifiedAt(s[1..], m)
  }

  lemma {:induction false} InsertNewestModifiedAt(x: AudioEntry, t: seq<AudioEntry>, m: int)
    ensures ModifiedAt(InsertNewest(x, t), m) == (if x.mtime == m then [x] else []) + ModifiedAt(t, m)
  {
    if t == [] || t[0].mtime <= x.mtime {
      assert ([x] + t)[1..] == t;
    } else {
      var rest := InsertNewest(x, t[1..]);
      var mine: seq<AudioEntry> := if x.mtime == m then [x] else [];
      var first: seq<AudioEntry> := if t[0].mtime == m then [t[0]] else [];
      assert ModifiedAt(rest, m) == mine + ModifiedAt(t[1..], m) by {
        InsertNewestModifiedAt(x, t[1..], m);
      }
      assert ModifiedAt(InsertNewest(x, t), m) == first + ModifiedAt(rest, m) by {
        assert InsertNewest(x, t) == [t[0]] + rest;
        assert ([t[0]] + rest)[1..] == rest;
      }
      assert mine == [] || first == [];
    }
  }

  /** The sort is stable: entries with the same time keep their listing order. */
  lemma {:induction false} NewestFirstIsStable(s: seq<AudioEntry>, m: int)
    ensures ModifiedAt(NewestFirst(s), m) == ModifiedAt(s, m)
  {
    if s != [] {
      NewestFirstIsStable(s[1..], m);
      InsertNewestModifiedAt(s[0], NewestFirst(s[1..]), m);
    }
  }

  lemma {:induction false} InsertNewestAt(x: AudioEntry, t: seq<AudioEntry>, k: nat)
    requires k <= |t|
    requires forall q :: 0 <= q < k ==> t[q].mtime > x.mtime
    requires k == |t| || t[k].mtime <= x.mtime
    ensures InsertNewest(x, t) == t[..k] + [x] + t[k..]
  {
    if k > 0 {
      var rest := t[1..];
      assert InsertNewest(x, rest) == rest[..k - 1] + [x] + rest[k - 1..] by {
        assert forall q :: 0 <= q < k - 1 ==> rest[q] == t[q + 1];
        InsertNewestAt(x, rest, k - 1);
      }
      assert InsertNewest(x, t) == [t[0]] + InsertNewest(x, rest) by {
        assert t != [] && t[0].mtime > x.mtime;
      }
      ConsThenSplit(t, k, x);
    } else {
      assert t[..0] == [] && t[0..] == t;
    }
  }

  lemma ConsThenSplit<T>(t: seq<T>, k: nat, x: T)
    requires 0 < k <= |t|
    ensures [t[0]] + (t[1..][..k - 1] + [x] + t[1..][k - 1..]) == t[..k] + [x] + t[k..]
  {
    assert [t[0]] + t[1..][..k - 1] == t[..k];
    assert t[1..][k - 1..] == t[k..];
  }

  /** `audioEntries.sort(...)`: sorts the entries in place, newest first, stably. */
  method SortNewestFirst(a: array<AudioEntry>)
    modifies a
    ensures a[..] == NewestFirst(old(a[..]))
  {
    ghost var s := a[..];
    var i := a.Length;
    while i > 0
      invariant 0 <= i <= a.Length
      invariant a[..i] == s[..i]
      invariant a[i..] == NewestFirst(s[i..])
    {
      i := i - 1;
      assert a[i] == s[i] by {
        assert a[..i + 1][i] == s[..i + 1][i];
      }
      ghost var before := a[..];
      InsertInto(a, i);
      assert a[..i] == s[..i] by {
        assert before[..i] == s[..i];
      }
      assert a[i..] == NewestFirst(s[i..]) by {
        NewestFirstFrom(s, i);
      }
    }
  }

  /** Sorting the entries from `i` on inserts the one at `i` among the sorted rest. */
  lemma NewestFirstFrom(s: seq<AudioEntry>, i: nat)
    requires i < |s|
    ensures NewestFirst(s[i..]) == InsertNewest(s[i], NewestFirst(s[i + 1..]))
  {
    assert s[i..][1..] == s[i + 1..];
  }

  /** Moves `a[i]` into the sorted entries after it. */
  method InsertInto(a: array<AudioEntry>, i: nat)
    requires i < a.Length
    modifies a
    ensures a[..i] == old(a[..i])
    ensures a[i..] == InsertNewest(old(a[i]), old(a[i + 1..]))
  {
    var x := a[i];
    ghost var t := a[i + 1..];
    var j := i;
    while j + 1 < a.Length && a[j + 1].mtime > x.mtime
      invariant i <= j < a.Length && |t| == a.Length - i - 1
      invariant a[..i] == old(a[..i])
      invariant a[i..j] == t[..j - i]
      invariant a[j + 1..] == t[j - i..]
      invariant forall q :: 0 <= q < j - i ==> t[q].mtime > x.mtime
    {
      assert a[j + 1] == t[j - i];
      ShiftDown(a, i, j, t);
      j := j + 1;
    }
    assert |t| == j - i || t[j - i] == a[j + 1];
    Place(a, i, j, x, t);
    InsertNewestAt(x, t, j - i);
  }

  /** The end of the insertion: `x` fills the gap at `j`. */
  method Place(a: array<AudioEntry>, i: nat, j: nat, x: AudioEntry, ghost t: seq<AudioEntry>)
    requires i <= j < a.Length && |t| == a.Length - i - 1
    requires a[i..j] == t[..j - i] && a[j + 1..] == t[j - i..]
    modifies a
    ensures a[..i] == old(a[..i])
    ensures a[i..] == t[..j - i] + [x] + t[j - i..]
  {
    ghost var before := a[..];
    a[j] := x;
    assert a[i..j] == before[i..j];
    assert a[j + 1..] == before[j + 1..];
    assert a[i..] == a[i..j] + [x] + a[j + 1..];
  }

  /** One step of the insertion: the entry after the gap at `j` moves into it. */
  method ShiftDown(a: array<AudioEntry>, i: nat, j: nat, ghost t: seq<AudioEntry>)
    requires i <= j && j + 1 < a.Length && |t| == a.Length - i - 1
    requires a[i..j] == t[..j - i] && a[j + 1..] == t[j - i..]
    modifies a
    ensures a[..i] == old(a[..i])
    ensures a[i..j + 1] == t[..j + 1 - i] && a[j + 2..] == t[j + 1 - i..]
  {
    ghost var before := a[..];
    assert before[j + 1] == t[j - i];
    a[j] := a[j + 1];
    assert a[i..j + 1] == before[i..j] + [t[j - i]];
    assert t[..j + 1 - i] == t[..j - i] + [t[j - i]];
    assert a[j + 2..] == before[j + 2..];
  }

  // ---------------------------------------------------------------- handler

  /** `fs.readdir(mediaDir)`: the names in the folder, or a failure. */
  datatype Listing = Unreadable | Files(names: seq<string>)

  /** The entries of the audio files, in listing order, or `None` when any `fs.stat` fails. */
  function AudioEntries(audio: seq<string>, mtimeOf: string -> Option<int>): (r: Option<seq<AudioEntry>>)
    ensures r.Some? ==> |r.value| == |audio|
    ensures r.Some? ==> forall i :: 0 <= i < |audio| ==>
      mtimeOf(audio[i]).Some? && r.value[i] == AudioEntry(audio[i], mtimeOf(audio[i]).value)
    ensures r.None? <==> exists i :: 0 <= i < |audio| && mtimeOf(audio[i]).None?
  {
    if audio == [] then Some([])
    else match mtimeOf(audio[0])
      case None => None
      case Some(t) =>
        match AudioEntries(audio[1..], mtimeOf)
        case None =>
          ghost var i :| 0 <= i < |audio[1..]| && mtimeOf(audio[1..][i]).None?;
          assert mtimeOf(audio[i + 1]).None?;
          None
        case Some(rest) => Some([AudioEntry(audio[0], t)] + rest)
  }

  /** The image metadata of the listing, in listing order. */
  function ImagesOf(files: seq<string>): (images: seq<ImageMeta>)
    ensures |images| == |Select(files, IsImageFile)|
  {
    var names := Select(files, IsImageFile);
    seq(|names|, i requires 0 <= i < |names| => ImageMetaOf(names[i]))
  }

  /** What the handler sends for a listing whose audio files all have times: 200 and one song per entry. */
  function CatalogOf(files: seq<string>, entries: seq<AudioEntry>): (r: Response<Payload>)
    ensures r.status == 200 && r.allow.None? && !r.noStore && r.body.SongList?
    ensures |r.body.songs| == |entries|
    ensures multiset(Filenames(r.body.songs)) == multiset(AudioFiles(entries))
  {
    var sorted := NewestFirst(entries);
    NewestFirstFiles(entries);
    SongsOfFiles(sorted, ImagesOf(files));
    assert |sorted| == |multiset(sorted)| == |entries|;
    Response(200, None, false, SongList(SongsOf(NewestFirst(entries), ImagesOf(files))))
  }

  /**
   * `handler(req, res)`: `listing` is what `fs.readdir` gives and `mtimeOf`
   * what `fs.stat` gives for each audio file. Any failure is a 500.
   */
  method Catalog(listing: Listing, mtimeOf: string -> Option<int>) returns (resp: Response<Payload>)
    ensures listing.Unreadable? ==> resp == Response(500, None, false, Error(FetchFailed))
    ensures listing.Files? ==>
      match AudioEntries(Select(listing.names, IsAudioFile), mtimeOf)
      case None => resp == Response(500, None, false, Error(FetchFailed))
      case Some(entries) => resp == CatalogOf(listing.names, entries)
  {
    if listing.Unreadable? {
      return Response(500, None, false, Error(FetchFailed));
    }
    var audio := Select(listing.names, IsAudioFile);
    var images := ImagesOf(listing.names);
    var found := AudioEntries(audio, mtimeOf);
    if found.None? {
      return Response(500, None, false, Error(FetchFailed));
    }
    var entries := found.value;
    var a := new AudioEntry[|entries|](i requires 0 <= i < |entries| => entries[i]);
    assert a[..] == entries;
    SortNewestFirst(a);
    var songs := SongsOf(a[..], images);
    resp := Response(200, None, false, SongList(songs));
  }

  /** The audio file names of the entries, in order. */
  function AudioFiles(entries: seq<AudioEntry>): (r: seq<string>)
    ensures |r| == |entries|
    ensures forall i :: 0 <= i < |entries| ==> r[i] == entries[i].audioFile
  {
    seq(|entries|, i requires 0 <= i < |entries| => entries[i].audioFile)
  }

  /** The file names of the songs, in order. */
  function Filenames(songs: seq<Song>): (r: seq<string>)
    ensures |r| == |songs|
    ensures forall i :: 0 <= i < |songs| ==> r[i] == songs[i].filename
  {
    seq(|songs|, i requires 0 <= i < |songs| => songs[i].filename)
  }

  lemma {:induction false} InsertNewestFiles(x: AudioEntry, t: seq<AudioEntry>)
    ensures multiset(AudioFiles(InsertNewest(x, t))) == multiset(AudioFiles(t)) + multiset{x.audioFile}
  {
    if t == [] || t[0].mtime <= x.mtime {
      assert AudioFiles([x] + t) == [x.audioFile] + AudioFiles(t);
    } else {
      var rest := InsertNewest(x, t[1..]);
      assert multiset(AudioFiles(rest)) == multiset(AudioFiles(t[1..])) + multiset{x.audioFile} by {
        InsertNewestFiles(x, t[1..]);
      }
      assert AudioFiles([t[0]] + rest) == [t[0].audioFile] + AudioFiles(rest);
      assert AudioFiles(t) == [t[0].audioFile] + AudioFiles(t[1..]);
    }
  }

  /** Sorting moves entries but neither adds nor drops a file name. */
  lemma {:induction false} NewestFirstFiles(s: seq<AudioEntry>)
    ensures multiset(AudioFiles(NewestFirst(s))) == multiset(AudioFiles(s))
  {
    if s != [] {
      var sorted := NewestFirst(s[1..]);
      assert multiset(AudioFiles(sorted)) == multiset(AudioFiles(s[1..])) by {
        NewestFirstFiles(s[1..]);
      }
      assert multiset(AudioFiles(InsertNewest(s[0], sorted))) == multiset(AudioFiles(sorted)) + multiset{s[0].audioFile} by {
        InsertNewestFiles(s[0], sorted);
      }
      assert AudioFiles(s) == [s[0].audioFile] + AudioFiles(s[1..]);
    }
  }

  /**
   * Every audio file of the listing becomes exactly one song (as many songs
   * as the file occurs in the listing), and every song is one of them.
   */
  lemma CatalogCoversAudioFiles(files: seq<string>, entries: seq<AudioEntry>, mtimeOf: string -> Option<int>)
    requires AudioEntries(Select(files, IsAudioFile), mtimeOf) == Some(entries)
    ensures var names := Filenames(CatalogOf(files, entries).body.songs);
      && multiset(names) == multiset(Select(files, IsAudioFile))
      && forall f :: f in names <==> f in files && IsAudioFile(f)
  {
    var audio := Select(files, IsAudioFile);
    var names := Filenames(CatalogOf(files, entries).body.songs);
    assert multiset(names) == multiset(audio) by {
      CatalogFiles(files, entries);
      EntryFiles(files, entries, mtimeOf);
      NewestFirstFiles(entries);
    }
    SameMultisetSameMembers(names, audio);
  }

  /** The songs of a catalog carry the file names of the sorted entries. */
  lemma CatalogFiles(files: seq<string>, entries: seq<AudioEntry>)
    ensures Filenames(CatalogOf(files, entries).body.songs) == AudioFiles(NewestFirst(entries))
  {
    SongsOfFiles(NewestFirst(entries), ImagesOf(files));
  }

  /** Each song carries the file name of its entry. */
  lemma SongsOfFiles(entries: seq<AudioEntry>, images: seq<ImageMeta>)
    ensures Filenames(SongsOf(entries, images)) == AudioFiles(entries)
  {
  }

  /** The entries found for the audio files are those files, in order. */
  lemma EntryFiles(files: seq<string>, entries: seq<AudioEntry>, mtimeOf: string -> Option<int>)
    requires AudioEntries(Select(files, IsAudioFile), mtimeOf) == Some(entries)
    ensures AudioFiles(entries) == Select(files, IsAudioFile)
  {
  }

  lemma SameMultisetSameMembers<T>(a: seq<T>, b: seq<T>)
    requires multiset(a) == multiset(b)
    ensures forall x :: x in a <==> x in b
  {
    forall x
      ensures x in a <==> x in b
    {
      assert x in a <==> x in multiset(a);
      assert x in b <==> x in multiset(b);
    }
  }

  /** Songs are listed newest first, and songs of the same time keep their listing order. */
  lemma CatalogIsNewestFirst(files: seq<string>, entries: seq<AudioEntry>)
    ensures var sorted := NewestFirst(entries);
      && CatalogOf(files, entries).body.songs == SongsOf(sorted, ImagesOf(files))
      && IsNewestFirst(sorted)
      && multiset(sorted) == multiset(entries)
      && forall m :: ModifiedAt(sorted, m) == ModifiedAt(entries, m)
  {
    NewestFirstIsOrdered(entries);
    forall m
      ensures ModifiedAt(NewestFirst(entries), m) == ModifiedAt(entries, m)
    {
      NewestFirstIsStable(entries, m);
    }
  }
}
