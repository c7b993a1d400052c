/**
 The version history of one stored file: save, patch, rollback and delete of tools/storage.go. The table
 `file_versions` is pruned by saves; it is compared with the full history of what was recorded.
 */
module VersionLog {
  import opened GoStrings
  import opened Wrappers

  const MAX_FILE_SIZE := 10485760
  const MAX_FILE_VERSIONS := 10
  const UNKNOWN_TYPE: string := "application/octet-stream"

  datatype Version = Version(content: string, kind: string)

  /** The file on disk, the content type in its row, and its numbered versions. */
  datatype File = File(content: Option<string>, kind: Option<string>, versions: map<nat, Version>)

  datatype Result = Success | Failure(error: string)

  datatype Replacement = Replacement(search: string, replace: string)

  predicate IsTextContentType(kind: string) {
    "text/" <= kind || kind in {"application/javascript", "application/json", "application/xml", "image/svg+xml"}
  }

  // Numbering: the highest number in the table, or 0.

  function Highest(keys: set<nat>): (m: nat)
    ensures forall k :: k in keys ==> k <= m
    ensures m in keys || (keys == {} && m == 0)
  {
    if keys == {} then 0 else
      HasHighest(keys);
      var m: nat :| m in keys && forall k :: k in keys ==> k <= m;
      m
  }

  lemma {:induction false} HasHighest(keys: set<nat>)
    requires keys != {}
    ensures exists m :: m in keys && forall k :: k in keys ==> k <= m
    decreases |keys|
  {
    var m :| m in keys;
    if keys != {m} {
      var rest := keys - {m};
      assert keys == {m} + rest;
      HasHighest(rest);
      var n :| n in rest && forall k :: k in rest ==> k <= n;
      var top := if n < m then m else n;
      forall k | k in keys ensures k <= top {
        assert k == m || k in rest;
      }
      assert top in keys;
    }
  }

  function Recorded(versions: map<nat, Version>, v: Version): map<nat, Version> {
    versions[Highest(versions.Keys) + 1 := v]
  }

  lemma HighestNext(versions: map<nat, Version>, v: Version)
    ensures Highest(Recorded(versions, v).Keys) == Highest(versions.Keys) + 1
  {
    var next := Highest(versions.Keys) + 1;
    assert Recorded(versions, v).Keys == versions.Keys + {next};
    assert next in Recorded(versions, v).Keys;
  }

  /** Deletes every number up to the highest less ten. */
  function Pruned(versions: map<nat, Version>): map<nat, Version> {
    var top := Highest(versions.Keys);
    map k | k in versions && !(top > MAX_FILE_VERSIONS && k <= top - MAX_FILE_VERSIONS) :: versions[k]
  }

  // Patches.

  /** `strings.ReplaceAll` of a text that is not empty. */
  function ReplaceAll(s: string, t: string, r: string): string
    requires t != ""
  {
    if |s| < |t| then s
    else if s[..|t|] == t then r + ReplaceAll(s[|t|..], t, r)
    else [s[0]] + ReplaceAll(s[1..], t, r)
  }

  /** The text after the patches, and whether some patch matched and some did not. */
  datatype Applied = Applied(text: string, some: bool, missed: bool)

  function Apply(s: string, patches: seq<Replacement>): Applied {
    if patches == [] then Applied(s, false, false) else
      var a, p := Apply(s, patches[..|patches| - 1]), patches[|patches| - 1];
      if p.search == "" then a
      else if !Contains(a.text, p.search) then a.(missed := true)
      else Applied(ReplaceAll(a.text, p.search, p.replace), true, a.missed)
  }

  // What a replacement makes of a text, by the parts that lie between the occurrences.

  /** With `t` behind it, `t` occurs first where `p` ends. */
  ghost predicate EndsFirst(p: string, t: string) { forall j :: 0 <= j < |p| ==> !Stands(p + t, t, j) }

  /** The parts of a text between the leftmost occurrences of `t`. */
  ghost predicate Leftmost(parts: seq<string>, t: string) {
    && parts != [] && !Occurs(parts[|parts| - 1], t)
    && forall i :: 0 <= i < |parts| - 1 ==> EndsFirst(parts[i], t)
  }

  lemma {:induction false} NothingReplaced(s: string, t: string, r: string)
    requires t != "" && !Occurs(s, t)
    ensures ReplaceAll(s, t, r) == s
    decreases |s|
  {
    if |s| >= |t| {
      assert !Stands(s, t, 0);
      forall j ensures !Stands(s[1..], t, j) {
        StandsBehind(s[0], s[1..], t, j);
        assert s == [s[0]] + s[1..];
      }
      NothingReplaced(s[1..], t, r);
    }
  }

  lemma StandsBehind(c: char, s: string, t: string, j: int)
    ensures j >= 0 ==> (Stands([c] + s, t, j + 1) <==> Stands(s, t, j))
  {
    assert 0 <= j <= |s| - |t| ==> ([c] + s)[j + 1..j + 1 + |t|] == s[j..j + |t|];
  }

  /** One more character in front. */
  lemma EndsFirstMore(c: char, p: string, t: string)
    requires t != ""
    ensures EndsFirst([c] + p, t) <==> EndsFirst(p, t) && ([c] + (p + t))[..|t|] != t
  {
    assert ([c] + p) + t == [c] + (p + t);
    assert Stands([c] + (p + t), t, 0) <==> ([c] + (p + t))[..|t|] == t;
    forall j | 0 <= j < |p| ensures Stands(([c] + p) + t, t, j + 1) <==> Stands(p + t, t, j) {
      StandsBehind(c, p + t, t, j);
    }
    if EndsFirst([c] + p, t) {
      forall j | 0 <= j < |p| ensures !Stands(p + t, t, j) {
        assert !Stands(([c] + p) + t, t, j + 1);
      }
      assert !Stands(([c] + p) + t, t, 0);
    }
    if EndsFirst(p, t) && ([c] + (p + t))[..|t|] != t {
      forall j | 0 <= j < |[c] + p| ensures !Stands(([c] + p) + t, t, j) {
        if j > 0 {
          assert !Stands(p + t, t, j - 1);
        }
      }
    }
  }

  lemma {:induction false} FirstReplaced(p: string, t: string, rest: string, r: string)
    requires t != "" && EndsFirst(p, t)
    ensures ReplaceAll(p + (t + rest), t, r) == p + (r + ReplaceAll(rest, t, r))
    decreases |p|
  {
    hide EndsFirst;
    var s := p + (t + rest);
    if p == "" {
      assert s == t + rest && s[..|t|] == t && s[|t|..] == rest;
    } else {
      var q := p[1..];
      assert p == [p[0]] + q && s == ([p[0]] + (q + t)) + rest && s[1..] == q + (t + rest);
      EndsFirstMore(p[0], q, t);
      assert s[..|t|] == ([p[0]] + (q + t))[..|t|];
      FirstReplaced(q, t, rest, r);
      assert [p[0]] + (q + (r + ReplaceAll(rest, t, r))) == p + (r + ReplaceAll(rest, t, r));
    }
  }

  lemma JoinMore(parts: seq<string>, sep: string)
    requires |parts| > 1
    ensures Join(parts, sep) == parts[0] + (sep + Join(parts[1..], sep))
  {
  }

  /** Replacing is joining the same parts with the other text. */
  lemma {:induction false} ReplacedByParts(parts: seq<string>, t: string, r: string)
    requires t != "" && Leftmost(parts, t)
    ensures ReplaceAll(Join(parts, t), t, r) == Join(parts, r)
    decreases |parts|
  {
    hide Occurs, EndsFirst, ReplaceAll, Join;
    if |parts| == 1 {
      OnlyPart(parts[0], t);
      OnlyPart(parts[0], r);
      assert parts == [parts[0]];
      NothingReplaced(parts[0], t, r);
    } else {
      JoinMore(parts, t);
      JoinMore(parts, r);
      FirstReplaced(parts[0], t, Join(parts[1..], t), r);
      ReplacedByParts(parts[1..], t, r);
    }
  }

  lemma OnlyPart(p: string, sep: string)
    ensures Join([p], sep) == p
  {
  }

  /** Every text has such parts. */
  lemma {:induction false} PartsOf(s: string, t: string) returns (parts: seq<string>)
    requires t != ""
    ensures Leftmost(parts, t) && Join(parts, t) == s
    decreases |s|
  {
    hide EndsFirst, Occurs, Join;
    if |s| < |t| {
      parts := [s];
      OnlyPart(s, t);
      TooShort(s, t);
    } else if s[..|t|] == t {
      var rest := PartsOf(s[|t|..], t);
      parts := [""] + rest;
      assert s == t + s[|t|..] && parts[1..] == rest && "" + (t + s[|t|..]) == s;
      JoinMore(parts, t);
      NothingBefore(t);
    } else {
      var rest := PartsOf(s[1..], t);
      parts := [[s[0]] + rest[0]] + rest[1..];
      OneMoreInFront(s, t, rest, parts);
    }
  }

  lemma TooShort(s: string, t: string)
    requires |s| < |t|
    ensures !Occurs(s, t)
  {
  }

  lemma NothingBefore(t: string)
    ensures EndsFirst("", t)
  {
  }

  lemma OneMoreInFront(s: string, t: string, rest: seq<string>, parts: seq<string>)
    requires t != "" && |s| >= |t| && s[..|t|] != t && Leftmost(rest, t) && Join(rest, t) == s[1..]
    requires parts == [[s[0]] + rest[0]] + rest[1..]
    ensures Leftmost(parts, t) && Join(parts, t) == s
  {
    hide EndsFirst, Occurs, Join;
    var p := [s[0]] + rest[0];
    assert parts[1..] == rest[1..] && s == [s[0]] + s[1..];
    if |rest| == 1 {
      assert rest == [rest[0]] && parts == [p];
      OnlyPart(rest[0], t);
      OnlyPart(p, t);
      StillNone(s[0], rest[0], t);
    } else {
      JoinMore(rest, t);
      JoinMore(parts, t);
      var tail := Join(rest[1..], t);
      assert s == ([s[0]] + (rest[0] + t)) + tail && s == p + (t + tail);
      assert ([s[0]] + (rest[0] + t))[..|t|] == s[..|t|];
      EndsFirstMore(s[0], rest[0], t);
    }
  }

  lemma StillNone(c: char, s: string, t: string)
    requires !Occurs(s, t) && |[c] + s| >= |t| && ([c] + s)[..|t|] != t
    ensures !Occurs([c] + s, t)
  {
    forall j ensures !Stands([c] + s, t, j) {
      StandsBehind(c, s, t, j - 1);
    }
  }

  /** For a single character the parts are simply those without it. */
  lemma SingleCharacter(parts: seq<string>, c: char, r: string)
    requires parts != [] && forall p :: p in parts ==> c !in p
    ensures ReplaceAll(Join(parts, [c]), [c], r) == Join(parts, r)
  {
    forall i | 0 <= i < |parts| ensures EndsFirst(parts[i], [c]) && !Occurs(parts[i], [c]) {
      assert parts[i] in parts;
      WithoutIt(parts[i], c);
    }
    ReplacedByParts(parts, [c], r);
  }

  lemma WithoutIt(p: string, c: char)
    requires c !in p
    ensures EndsFirst(p, [c]) && !Occurs(p, [c])
  {
    forall j | 0 <= j < |p| ensures !Stands(p + [c], [c], j) && !Stands(p, [c], j) {
      assert p[j] in p;
      assert (p + [c])[j..j + 1] == [p[j]] == p[j..j + 1];
    }
  }

  /** The patch has something to look for, and it is there. */
  ghost predicate Hits(a: string, p: Replacement) { p.search != "" && Occurs(a, p.search) }

  /** What one patch makes of a text. */
  ghost predicate PatchGives(a: string, p: Replacement, b: string) {
    if Hits(a, p)
    then exists parts :: Leftmost(parts, p.search) && a == Join(parts, p.search) && b == Join(parts, p.replace)
    else a == b
  }

  /** The patches are applied one after the other, each to what the one before it gave. */
  lemma {:induction false} ApplyMeans(s: string, patches: seq<Replacement>) returns (texts: seq<string>)
    ensures |texts| == |patches| + 1 && texts[0] == s
    ensures forall k :: 0 <= k < |patches| ==> PatchGives(texts[k], patches[k], texts[k + 1])
    ensures var a := Apply(s, patches);
            && a.text == texts[|patches|] && (!a.some ==> a.text == s)
            && (a.some <==> exists k :: 0 <= k < |patches| && Hits(texts[k], patches[k]))
            && (a.missed <==> exists k :: 0 <= k < |patches| && patches[k].search != "" && !Hits(texts[k], patches[k]))
    decreases |patches|
  {
    hide Leftmost, ReplaceAll, Contains, Join, Stands, Occurs;
    if patches == [] {
      texts := [s];
    } else {
      var n := |patches| - 1;
      var front := ApplyMeans(s, patches[..n]);
      var a, p := Apply(s, patches[..n]), patches[n];
      ContainsMeans(a.text, p.search);
      var b := Apply(s, patches).text;
      texts := front + [b];
      if Hits(a.text, p) {
        var parts := PartsOf(a.text, p.search);
        ReplacedByParts(parts, p.search, p.replace);
      }
      OneMoreText(front, patches, b);
    }
  }

  lemma OneMoreText(front: seq<string>, patches: seq<Replacement>, b: string)
    requires |front| == |patches| > 0
    ensures var texts, n := front + [b], |patches| - 1;
            && (forall k :: 0 <= k <= n ==> texts[k] == front[k]) && texts[n + 1] == b
            && ((exists k :: 0 <= k < |patches| && Hits(texts[k], patches[k]))
                <==> Hits(front[n], patches[n]) || exists k :: 0 <= k < n && Hits(front[k], patches[..n][k]))
            && ((exists k :: 0 <= k < |patches| && patches[k].search != "" && !Hits(texts[k], patches[k]))
                <==> || (patches[n].search != "" && !Hits(front[n], patches[n]))
                     || exists k :: 0 <= k < n && patches[..n][k].search != "" && !Hits(front[k], patches[..n][k]))
  {
    hide Hits;
    var texts, n := front + [b], |patches| - 1;
    if k :| 0 <= k < n && Hits(front[k], patches[..n][k]) {
      assert Hits(texts[k], patches[k]);
    }
    if k :| 0 <= k < n && patches[..n][k].search != "" && !Hits(front[k], patches[..n][k]) {
      assert patches[k].search != "" && !Hits(texts[k], patches[k]);
    }
    if k :| 0 <= k < |patches| && Hits(texts[k], patches[k]) {
      assert k < n ==> Hits(front[k], patches[..n][k]);
    }
    if k :| 0 <= k < |patches| && patches[k].search != "" && !Hits(texts[k], patches[k]) {
      assert k < n ==> patches[..n][k].search != "" && !Hits(front[k], patches[..n][k]);
    }
  }

  // The operations.

  function SavedKind(inferred: string, declared: string): string {
    if inferred != UNKNOWN_TYPE then inferred else if declared == "" then inferred else declared
  }

  function Saved(f: File, data: string, kind: string): File {
    var versions :=
      if IsTextContentType(kind) && f.kind.Some? && f.content.Some?
      then Pruned(Recorded(f.versions, Version(f.content.value, kind)))
      else f.versions;
    File(Some(data), Some(kind), versions)
  }

  predicate Patchable(f: File) { f.kind.Some? && IsTextContentType(f.kind.value) && f.content.Some? }

  function Patched(f: File, patches: seq<Replacement>): File
    requires Patchable(f)
  {
    var a := Apply(f.content.value, patches);
    File(if !a.some && a.missed then f.content else Some(a.text), f.kind,
         Recorded(f.versions, Version(f.content.value, f.kind.value)))
  }

  function RolledBack(f: File, version: nat, inferred: string): File
    requires version in f.versions
  {
    var v := f.versions[version];
    File(Some(v.content),
         if f.kind.None? then None else Some(if v.kind == "" then inferred else v.kind),
         if f.content.Some? then Recorded(f.versions, Version(f.content.value, v.kind)) else f.versions)
  }

  /** The stored text after a patch, by the texts that lie between its replacements. */
  lemma PatchStores(f: File, patches: seq<Replacement>) returns (texts: seq<string>)
    requires Patchable(f)
    ensures |texts| == |patches| + 1 && texts[0] == f.content.value
    ensures forall k :: 0 <= k < |patches| ==> PatchGives(texts[k], patches[k], texts[k + 1])
    ensures Patched(f, patches).content == Some(texts[|patches|]) && Patched(f, patches).kind == f.kind
  {
    hide PatchGives, Hits, Recorded, Apply;
    texts := ApplyMeans(f.content.value, patches);
  }

  /** One patch that occurs: every occurrence is replaced, from left to right. */
  lemma OnePatch(f: File, p: Replacement, parts: seq<string>)
    requires Patchable(f) && p.search != "" && |parts| > 1
    requires Leftmost(parts, p.search) && f.content.value == Join(parts, p.search)
    ensures Patched(f, [p]).content == Some(Join(parts, p.replace))
    ensures Apply(f.content.value, [p]) == Applied(Join(parts, p.replace), true, false)
  {
    hide Leftmost, Recorded, ReplaceAll;
    var s := f.content.value;
    assert [p][..0] == [] && Apply(s, []) == Applied(s, false, false);
    JoinMore(parts, p.search);
    var n := |parts[0]|;
    assert s[n..n + |p.search|] == p.search;
    assert Stands(s, p.search, n);
    ContainsMeans(s, p.search);
    ReplacedByParts(parts, p.search, p.replace);
    hide Contains, Join;
  }

  /** What a save leaves, with the types spelt out. */
  lemma SaveLeaves(f: File, data: string, declared: string, inferred: string)
    ensures var g := Saved(f, data, SavedKind(inferred, declared));
            var kind := if inferred != "application/octet-stream" then inferred
                        else if declared == "" then "application/octet-stream" else declared;
            var textual := (|kind| >= 5 && kind[..5] == "text/") || kind == "application/javascript" || kind == "application/json"
                           || kind == "application/xml" || kind == "image/svg+xml";
            && g.content == Some(data) && g.kind == Some(kind)
            && (textual && f.kind.Some? && f.content.Some? ==>
                  g.versions == Pruned(Recorded(f.versions, Version(f.content.value, kind))))
            && (!(textual && f.kind.Some? && f.content.Some?) ==> g.versions == f.versions)
  {
    hide Pruned, Recorded;
    var kind := SavedKind(inferred, declared);
    assert "text/" <= kind <==> |kind| >= 5 && kind[..5] == "text/";
  }

  class StoredFile {
    const inferred: string
    const decodeBase64: string -> Option<string>
    var content: Option<string>
    var kind: Option<string>
    var versions: map<nat, Version>

    constructor (inferred: string, decodeBase64: string -> Option<string>)
      ensures this.inferred == inferred && this.decodeBase64 == decodeBase64
      ensures Contents() == File(None, None, map[])
    {
      this.inferred, this.decodeBase64 := inferred, decodeBase64;
      content, kind, versions := None, None, map[];
    }

    ghost function Contents(): File reads this { File(content, kind, versions) }

    method RecordAndPrune(v: Version)
      modifies this`versions
      ensures versions == Pruned(Recorded(old(versions), v))
    {
      var maxVer := Highest(versions.Keys);
      HighestNext(versions, v);
      versions := versions[maxVer + 1 := v];
      if maxVer + 1 > MAX_FILE_VERSIONS {
        versions := map k | k in versions && !(k <= maxVer + 1 - MAX_FILE_VERSIONS) :: versions[k];
      }
    }

    method Save(text: string, data: string, declared: string) returns (r: Result)
      modifies this
      ensures var bytes := if text != "" then Some(text) else if data == "" then None else decodeBase64(data);
              if bytes.Some? && |bytes.value| <= MAX_FILE_SIZE
              then r == Success && Contents() == Saved(old(Contents()), bytes.value, SavedKind(inferred, declared))
              else r.Failure? && Contents() == old(Contents())
    {
      hide Pruned, Recorded, IsTextContentType;
      if text == "" && data == "" {
        return Failure("either content or data (base64) is required");
      }
      var fileData := if text != "" then Some(text) else decodeBase64(data);
      if fileData.None? {
        return Failure("invalid base64 data");
      }
      if |fileData.value| > MAX_FILE_SIZE {
        return Failure("file too large");
      }
      var contentType := declared;
      if inferred != UNKNOWN_TYPE {
        contentType := inferred;
      } else if contentType == "" {
        contentType := inferred;
      }
      if IsTextContentType(contentType) && kind.Some? && content.Some? {
        RecordAndPrune(Version(content.value, contentType));
      }
      content, kind, r := Some(fileData.value), Some(contentType), Success;
    }

    method Patch(patches: seq<Replacement>) returns (r: Result)
      modifies this
      ensures if patches == [] || !Patchable(old(Contents())) then r.Failure? && Contents() == old(Contents())
              else
                var a := Apply(old(content).value, patches);
                Contents() == Patched(old(Contents()), patches) && (r == Success <==> a.some || !a.missed)
    {
      if patches == [] {
        return Failure("patches array is empty");
      }
      if kind.None? {
        return Failure("file not found");
      }
      if !IsTextContentType(kind.value) {
        return Failure("patch only works on text files");
      }
      if content.None? {
        return Failure("file not found on disk");
      }
      var maxVer := Highest(versions.Keys);
      versions := versions[maxVer + 1 := Version(content.value, kind.value)];
      var modified := content.value;
      var applied, notFound := 0, 0;
      assert patches[..0] == [];
      for i := 0 to |patches|
        invariant content == old(content) && kind == old(kind)
        invariant versions == Recorded(old(versions), Version(content.value, kind.value))
        invariant applied >= 0 && notFound >= 0
        invariant Apply(content.value, patches[..i]) == Applied(modified, applied > 0, notFound > 0)
      {
        var p := patches[i];
        assert patches[..i + 1][..i] == patches[..i];
        if p.search == "" {
          continue;
        }
        if !Contains(modified, p.search) {
          notFound := notFound + 1;
          continue;
        }
        modified := ReplaceAll(modified, p.search, p.replace);
        applied := applied + 1;
      }
      assert patches[..|patches|] == patches;
      if applied == 0 && notFound > 0 {
        return Failure("no patches matched");
      }
      content, r := Some(modified), Success;
    }

    method Rollback(version: int) returns (r: Result)
      modifies this
      ensures if version >= 1 && version in old(versions)
              then r == Success && Contents() == RolledBack(old(Contents()), version, inferred)
              else r.Failure? && Contents() == old(Contents())
    {
      if version < 1 {
        return Failure("version (number) is required");
      }
      if version !in versions {
        return Failure("version not found");
      }
      var v := versions[version];
      if content.Some? {
        var maxVer := Highest(versions.Keys);
        versions := versions[maxVer + 1 := Version(content.value, v.kind)];
      }
      content := Some(v.content);
      if kind.Some? {
        kind := Some(if v.kind == "" then inferred else v.kind);
      }
      r := Success;
    }

    method Delete() returns (r: Result)
      modifies this
      ensures if old(kind).None? then r.Failure? && Contents() == old(Contents())
              else r == Success && Contents() == File(None, None, old(versions))
    {
      if kind.None? {
        return Failure("not found");
      }
      content, kind, r := None, None, Success;
    }
  }

  // Whole histories of a file.

  datatype Event = Save(data: string, kind: string) | Patch(patches: seq<Replacement>) | Rollback(version: nat) | Delete

  /** The operations as events; one that fails changes nothing. */
  function Step(f: File, e: Event, inferred: string): File {
    match e
    case Save(data, kind) => Saved(f, data, SavedKind(inferred, kind))
    case Patch(patches) => if Patchable(f) then Patched(f, patches) else f
    case Rollback(version) => if version in f.versions then RolledBack(f, version, inferred) else f
    case Delete => if f.kind.None? then f else File(None, None, f.versions)
  }

  /** Whether the step records the content it finds. */
  predicate Records(f: File, e: Event, inferred: string) {
    f.content.Some?
    && match e
       case Save(_, kind) => IsTextContentType(SavedKind(inferred, kind)) && f.kind.Some?
       case Patch(_) => Patchable(f)
       case Rollback(version) => version in f.versions
       case Delete => false
  }

  const NEW_FILE := File(None, None, map[])

  function After(events: seq<Event>, inferred: string): File {
    if events == [] then NEW_FILE
    else Step(After(events[..|events| - 1], inferred), events[|events| - 1], inferred)
  }

  /** Every content recorded since the file was new, pruned or not. */
  function History(events: seq<Event>, inferred: string): seq<string> {
    if events == [] then [] else
      var front, e := events[..|events| - 1], events[|events| - 1];
      var f := After(front, inferred);
      History(front, inferred) + if Records(f, e, inferred) then [f.content.value] else []
  }

  /** The table holds the history from number `low + 1` on: all of it, or at least its last ten. */
  ghost predicate Window(versions: map<nat, Version>, log: seq<string>, low: nat) {
    && low <= |log| && (low == 0 || |log| - low >= MAX_FILE_VERSIONS)
    && (forall k :: k in versions <==> low < k <= |log|)
    && forall k :: k in versions ==> versions[k].content == log[k - 1]
  }

  lemma WindowTop(versions: map<nat, Version>, log: seq<string>, low: nat)
    requires Window(versions, log, low)
    ensures Highest(versions.Keys) == |log|
  {
    assert |log| > 0 ==> |log| in versions;
  }

  lemma WindowGrows(versions: map<nat, Version>, log: seq<string>, low: nat, v: Version)
    requires Window(versions, log, low)
    ensures Window(Recorded(versions, v), log + [v.content], low)
  {
    WindowTop(versions, log, low);
  }

  lemma WindowPruned(versions: map<nat, Version>, log: seq<string>, low: nat) returns (low': nat)
    requires Window(versions, log, low)
    ensures Window(Pruned(versions), log, low') && |log| - low' <= MAX_FILE_VERSIONS && low <= low'
  {
    WindowTop(versions, log, low);
    low' := if |log| > MAX_FILE_VERSIONS then |log| - MAX_FILE_VERSIONS else low;
  }

  /**
   Whatever is done to a file, its version numbers are contiguous up to the number of contents recorded so far,
   and each version holds the content that was current when it was recorded.
   */
  lemma {:induction false} VersionsAreAWindow(events: seq<Event>, inferred: string) returns (low: nat)
    ensures Window(After(events, inferred).versions, History(events, inferred), low)
    decreases |events|
  {
    if events == [] {
      return 0;
    }
    hide Window;
    var front, e := events[..|events| - 1], events[|events| - 1];
    var f, log := After(front, inferred), History(front, inferred);
    low := VersionsAreAWindow(front, inferred);
    assert log + [] == log;
    if Records(f, e, inferred) {
      var kind := match e
        case Save(_, kind) => SavedKind(inferred, kind)
        case Patch(_) => f.kind.value
        case Rollback(version) => f.versions[version].kind
        case Delete => "";
      var v := Version(f.content.value, kind);
      WindowGrows(f.versions, log, low, v);
      if e.Save? {
        low := WindowPruned(Recorded(f.versions, v), log + [v.content], low);
      }
    }
  }

  lemma {:induction false} Between(keys: set<nat>, low: nat, high: nat)
    requires low <= high && forall k :: k in keys <==> low < k <= high
    ensures |keys| == high - low
    decreases high - low
  {
    if low == high {
      assert keys == {};
    } else {
      Between(keys - {high}, low, high - 1);
    }
  }

  /** Numbers are never reused or lost at the top, and the last ten contents recorded can always be restored. */
  lemma LastTenAreKept(events: seq<Event>, inferred: string)
    ensures var f, log := After(events, inferred), History(events, inferred);
            && Highest(f.versions.Keys) == |log|
            && forall k: nat :: 0 < k <= |log| && |log| - MAX_FILE_VERSIONS < k ==>
                 k in f.versions && f.versions[k].content == log[k - 1]
  {
    var low := VersionsAreAWindow(events, inferred);
    WindowTop(After(events, inferred).versions, History(events, inferred), low);
  }

  /** A save leaves at most ten versions exactly when it records one, or there were at most ten before. */
  lemma SavesPrune(events: seq<Event>, inferred: string, data: string, kind: string)
    ensures var f := After(events, inferred);
            |Step(f, Save(data, kind), inferred).versions| <= MAX_FILE_VERSIONS
            <==> Records(f, Save(data, kind), inferred) || |f.versions| <= MAX_FILE_VERSIONS
  {
    var f, log := After(events, inferred), History(events, inferred);
    if Records(f, Save(data, kind), inferred) {
      var low := VersionsAreAWindow(events, inferred);
      var v := Version(f.content.value, SavedKind(inferred, kind));
      WindowGrows(f.versions, log, low, v);
      low := WindowPruned(Recorded(f.versions, v), log + [v.content], low);
      var versions := Pruned(Recorded(f.versions, v));
      Between(versions.Keys, low, |log| + 1);
      assert |versions| == |versions.Keys|;
    }
  }

  /** An overwritten content becomes the newest version, unless it is deleted, or saved over as binary or without a row. */
  lemma OverwrittenIsKept(f: File, e: Event, inferred: string)
    requires f.content.Some? && Step(f, e, inferred).content != f.content
    ensures var g := Step(f, e, inferred);
            var top := Highest(g.versions.Keys);
            var unrecorded := e.Delete? || (e.Save? && (!IsTextContentType(SavedKind(inferred, e.kind)) || f.kind.None?));
            unrecorded <==> !(top == Highest(f.versions.Keys) + 1 && g.versions[top].content == f.content.value)
  {
    if Records(f, e, inferred) {
      var kind := match e
        case Save(_, kind) => SavedKind(inferred, kind)
        case Patch(_) => f.kind.value
        case Rollback(version) => f.versions[version].kind
        case Delete => "";
      var v := Version(f.content.value, kind);
      HighestNext(f.versions, v);
      PrunedTop(Recorded(f.versions, v));
    }
  }

  /** A patch that matches nothing is an error and leaves the content alone, but uses up a version number. */
  lemma {:induction false} MissedPatch(f: File, patches: seq<Replacement>)
    requires Patchable(f) && patches != []
    requires forall p :: p in patches ==> p.search != "" && !Contains(f.content.value, p.search)
    ensures Apply(f.content.value, patches) == Applied(f.content.value, false, true)
    ensures Patched(f, patches) == f.(versions := Recorded(f.versions, Version(f.content.value, f.kind.value)))
    decreases |patches|
  {
    var front := patches[..|patches| - 1];
    assert patches[|patches| - 1] in patches;
    if front != [] {
      MissedPatch(f, front);
    }
  }

  lemma PrunedTop(versions: map<nat, Version>)
    ensures Highest(Pruned(versions).Keys) == Highest(versions.Keys)
    ensures versions != map[] ==>
              Highest(versions.Keys) in Pruned(versions)
              && Pruned(versions)[Highest(versions.Keys)] == versions[Highest(versions.Keys)]
  {
    if versions != map[] {
      assert versions.Keys != {};
      assert Highest(versions.Keys) in Pruned(versions);
    }
  }

  /**
   Rolling back and then rolling back to the version just recorded restores the content. It restores the content
   type exactly when the restored version had the type of the file: the version it records is labelled with the
   type of the version it restores.
   */
  lemma RollbackUndone(f: File, version: nat, inferred: string)
    requires version in f.versions && f.content.Some?
    ensures var undo := Highest(f.versions.Keys) + 1;
            var g := RolledBack(f, version, inferred);
            && g.content == Some(f.versions[version].content)
            && undo in g.versions && undo !in f.versions
            && var h := RolledBack(g, undo, inferred);
               var kind := if f.versions[version].kind == "" then inferred else f.versions[version].kind;
               && h.content == f.content
               && (h.kind == f.kind <==> f.kind.None? || f.kind.value == kind)
               && forall k :: k in f.versions ==> k in h.versions && h.versions[k] == f.versions[k]
  {
    var v := Version(f.content.value, f.versions[version].kind);
    HighestNext(f.versions, v);
  }

  /** Under a known extension every type agrees, so a rollback that is undone restores the whole file. */
  lemma {:induction false} KnownTypesAgree(events: seq<Event>, inferred: string)
    requires inferred != UNKNOWN_TYPE
    ensures var f := After(events, inferred);
            (f.kind.Some? ==> f.kind.value == inferred) && forall k :: k in f.versions ==> f.versions[k].kind == inferred
    decreases |events|
  {
    if events != [] {
      KnownTypesAgree(events[..|events| - 1], inferred);
    }
  }

  /**
   Under an unknown extension the type can be lost: three saves with types of their own, a rollback to the first
   version, and the rollback that undoes it leave the last content under the type of the second save.
   */
  lemma TypeLost(events: seq<Event>)
    requires events == [Save("a", "text/plain"), Save("b", "text/html"), Save("c", "text/css")]
    ensures var f := After(events, UNKNOWN_TYPE);
            && f.content == Some("c") && f.kind == Some("text/css") && 1 in f.versions && 3 !in f.versions
            && var g := RolledBack(f, 1, UNKNOWN_TYPE);
               && 3 in g.versions
               && var h := RolledBack(g, 3, UNKNOWN_TYPE);
                  h.content == Some("c") && h.kind == Some("text/html")
  {
    TextTypes();
    hide IsTextContentType, Recorded, Pruned, Highest;
    var one, two := events[..1], events[..2];
    assert two[..1] == one && one[..0] == [] && events[..2] == two;
    assert After(one, UNKNOWN_TYPE) == File(Some("a"), Some("text/plain"), map[]);
    var first := Version("a", "text/html");
    assert After(two, UNKNOWN_TYPE) == File(Some("b"), Some("text/html"), map[1 := first]) by {
      RecordedNext(map[], 0, first);
    }
    var second := Version("b", "text/css");
    assert After(events, UNKNOWN_TYPE) == File(Some("c"), Some("text/css"), map[1 := first, 2 := second]) by {
      RecordedNext(map[1 := first], 1, second);
    }
    RecordedNext(map[1 := first, 2 := second], 2, Version("c", "text/html"));
  }

  lemma TextTypes()
    ensures IsTextContentType("text/plain") && IsTextContentType("text/html") && IsTextContentType("text/css")
  {
  }

  lemma RecordedNext(versions: map<nat, Version>, n: nat, v: Version)
    requires n < MAX_FILE_VERSIONS && forall k :: k in versions <==> 1 <= k <= n
    ensures Recorded(versions, v) == versions[n + 1 := v] == Pruned(Recorded(versions, v))
  {
    assert Highest(versions.Keys) == n by {
      assert n > 0 ==> n in versions.Keys;
    }
    HighestNext(versions, v);
  }
}
