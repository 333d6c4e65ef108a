/**
 * How `youtube_tool.py` finds the video file yt-dlp left in a folder
 * (`_encontrar_video_baixado`, with `_escolher_maior_arquivo`): first the
 * exact names it looks for, then any video file whose name starts with the
 * base-name-and-resolution prefix, then any video file carrying the resolution tag; in
 * each tier the largest file wins.
 */
module Download {
  import opened Wrappers
  import opened Text

  /**
   * One entry of the folder: its name, whether it is a regular file, its
   * size in bytes and its modification time. Paths are names in the
   * folder; joining them to the folder is not modelled.
   */
  datatype DirEntry = DirEntry(name: string, isFile: bool, size: nat, mtime: real)

  const VideoExtensions: seq<string> := [".mp4", ".mkv", ".webm", ".mov", ".m4v"]

  /** The entry a name refers to (the first one of that name). */
  function Lookup(dir: seq<DirEntry>, name: string): (r: Option<DirEntry>)
    ensures r.Some? ==> r.value in dir && r.value.name == name
    ensures r.None? ==> forall k :: 0 <= k < |dir| ==> dir[k].name != name
  {
    if dir == [] then None
    else if dir[0].name == name then Some(dir[0])
    else Lookup(dir[1..], name)
  }

  /** `c and os.path.exists(c)`. */
  predicate Exists(dir: seq<DirEntry>, c: string) { c != [] && Lookup(dir, c).Some? }

  /** `(os.path.getsize(c), os.path.getmtime(c))` of `a` is greater than that of `b`. */
  predicate Larger(a: DirEntry, b: DirEntry)
  {
    a.size > b.size || (a.size == b.size && a.mtime > b.mtime)
  }

  function Stat(dir: seq<DirEntry>, c: string): DirEntry
    requires Exists(dir, c)
  {
    Lookup(dir, c).value
  }

  predicate AllExist(dir: seq<DirEntry>, cs: seq<string>) { forall k :: 0 <= k < |cs| ==> Exists(dir, cs[k]) }

  // ---------------------------------------------------------------------
  // _escolher_maior_arquivo
  // ---------------------------------------------------------------------

  /** `[c for c in candidatos if c and os.path.exists(c)]`. */
  function Valid(dir: seq<DirEntry>, cands: seq<string>): (vs: seq<string>)
    ensures AllExist(dir, vs)
    ensures |vs| <= |cands|
  {
    if cands == [] then []
    else
      var last := cands[|cands| - 1];
      Valid(dir, cands[..|cands| - 1]) + (if Exists(dir, last) then [last] else [])
  }

  /** `max(vs, key=...)`: a later file replaces the current one only when its key is strictly greater. */
  function MaxBy(dir: seq<DirEntry>, vs: seq<string>): (m: string)
    requires vs != [] && AllExist(dir, vs)
    ensures m in vs && Exists(dir, m)
  {
    if |vs| == 1 then vs[0]
    else
      var m := MaxBy(dir, vs[..|vs| - 1]);
      var last := vs[|vs| - 1];
      if Larger(Stat(dir, last), Stat(dir, m)) then last else m
  }

  /** `_escolher_maior_arquivo`. */
  function Best(dir: seq<DirEntry>, cands: seq<string>): (r: Option<string>)
    ensures r.Some? ==> Exists(dir, r.value)
  {
    var vs := Valid(dir, cands);
    if vs == [] then None else Some(MaxBy(dir, vs))
  }

  /** The valid candidates are exactly the existing ones. */
  lemma {:induction false} ValidMembers(dir: seq<DirEntry>, cands: seq<string>)
    ensures forall c :: c in Valid(dir, cands) <==> c in cands && Exists(dir, c)
  {
    if cands != [] {
      var init := cands[..|cands| - 1];
      ValidMembers(dir, init);
      assert cands == init + [cands[|cands| - 1]];
    }
  }

  /**
   * The maximum is one of the files, no file has a greater key, and it is
   * the first file with its key: it beats every file before it.
   */
  lemma {:induction false} MaxByIsFirstMax(dir: seq<DirEntry>, vs: seq<string>) returns (i: nat)
    requires vs != [] && AllExist(dir, vs)
    ensures i < |vs| && vs[i] == MaxBy(dir, vs)
    ensures forall k :: 0 <= k < |vs| ==> !Larger(Stat(dir, vs[k]), Stat(dir, MaxBy(dir, vs)))
    ensures forall k :: 0 <= k < i ==> Larger(Stat(dir, vs[i]), Stat(dir, vs[k]))
  {
    if |vs| == 1 {
      i := 0;
    } else {
      var init := vs[..|vs| - 1];
      var j := MaxByIsFirstMax(dir, init);
      var m := MaxBy(dir, init);
      var last := vs[|vs| - 1];
      if Larger(Stat(dir, last), Stat(dir, m)) {
        i := |vs| - 1;
        forall k | 0 <= k < i
          ensures Larger(Stat(dir, vs[i]), Stat(dir, vs[k]))
        {
          assert vs[k] == init[k];
        }
      } else {
        i := j;
        forall k | 0 <= k < |vs|
          ensures !Larger(Stat(dir, vs[k]), Stat(dir, m))
        {
          if k < |vs| - 1 { assert vs[k] == init[k]; }
        }
      }
    }
  }

  /**
   * `_escolher_maior_arquivo` returns nothing exactly when no candidate
   * exists, and otherwise an existing candidate with no existing
   * candidate larger.
   */
  lemma BestIsLargest(dir: seq<DirEntry>, cands: seq<string>)
    ensures Best(dir, cands).None? <==> forall k :: 0 <= k < |cands| ==> !Exists(dir, cands[k])
    ensures Best(dir, cands).Some? ==> Best(dir, cands).value in cands && Exists(dir, Best(dir, cands).value)
    ensures Best(dir, cands).Some? ==> forall k :: 0 <= k < |cands| && Exists(dir, cands[k]) ==>
      !Larger(Stat(dir, cands[k]), Stat(dir, Best(dir, cands).value))
  {
    var vs := Valid(dir, cands);
    ValidMembers(dir, cands);
    if vs != [] {
      var i := MaxByIsFirstMax(dir, vs);
      forall k | 0 <= k < |cands| && Exists(dir, cands[k])
        ensures !Larger(Stat(dir, cands[k]), Stat(dir, MaxBy(dir, vs)))
      {
        assert cands[k] in vs;
      }
    } else {
      forall k | 0 <= k < |cands|
        ensures !Exists(dir, cands[k])
      {
        assert cands[k] in cands;
      }
    }
  }

  /** The filtering loop of `_escolher_maior_arquivo`. */
  method ExistingCandidates(dir: seq<DirEntry>, candidatos: seq<string>) returns (validos: seq<string>)
    ensures validos == Valid(dir, candidatos)
  {
    validos := [];
    for i := 0 to |candidatos|
      invariant validos == Valid(dir, candidatos[..i])
    {
      assert candidatos[..i + 1][..i] == candidatos[..i];
      if Exists(dir, candidatos[i]) {
        validos := validos + [candidatos[i]];
      }
    }
    assert candidatos[..|candidatos|] == candidatos;
  }

  /** The `max` of `_escolher_maior_arquivo`, as the loop it runs. */
  method LargestOf(dir: seq<DirEntry>, validos: seq<string>) returns (maior: string)
    requires validos != [] && AllExist(dir, validos)
    ensures maior == MaxBy(dir, validos)
  {
    maior := validos[0];
    assert validos[..1] == [validos[0]];
    for i := 1 to |validos|
      invariant maior == MaxBy(dir, validos[..i])
    {
      assert validos[..i + 1][..i] == validos[..i];
      if Larger(Stat(dir, validos[i]), Stat(dir, maior)) {
        maior := validos[i];
      }
    }
    assert validos[..|validos|] == validos;
  }

  /** `_escolher_maior_arquivo`. */
  method ChooseLargest(dir: seq<DirEntry>, candidatos: seq<string>) returns (achado: Option<string>)
    ensures achado == Best(dir, candidatos)
  {
    var validos := ExistingCandidates(dir, candidatos);
    if validos == [] {
      return None;
    }
    var maior := LargestOf(dir, validos);
    achado := Some(maior);
  }

  // ---------------------------------------------------------------------
  // _encontrar_video_baixado
  // ---------------------------------------------------------------------

  /** The rightmost `.` of `s`. */
  function LastDot(s: string): (r: Option<nat>)
    ensures r.Some? ==> r.value < |s| && s[r.value] == '.' && forall k :: r.value < k < |s| ==> s[k] != '.'
    ensures r.None? ==> forall k :: 0 <= k < |s| ==> s[k] != '.'
  {
    if s == [] then None
    else if s[|s| - 1] == '.' then Some(|s| - 1)
    else LastDot(s[..|s| - 1])
  }

  /**
   * `os.path.splitext(name)[1]` for a name without a separator: from the
   * last dot on, unless only dots come before that dot.
   */
  function Ext(name: string): (r: string)
    ensures r == [] || (r[0] == '.' && forall k :: 1 <= k < |r| ==> r[k] != '.')
    ensures |r| <= |name| && r == name[|name| - |r|..]
    ensures r != [] ==> LastDot(name).Some? && r == name[LastDot(name).value..]
    ensures r == [] <==> (LastDot(name).None? || forall k :: 0 <= k < LastDot(name).value ==> name[k] == '.')
  {
    var d := LastDot(name);
    if d.Some? && exists k :: 0 <= k < d.value && name[k] != '.' then name[d.value..] else []
  }

  /** A regular file whose lower-cased extension is a video extension. */
  predicate IsVideoFile(e: DirEntry)
  {
    e.isFile && Ext(Lower(e.name)) in VideoExtensions
  }

  predicate StartsWith(s: string, p: string) { |p| <= |s| && s[..|p|] == p }

  /** The second and third tiers: by name prefix, any case, or by the resolution tag. */
  datatype Tier = ByPrefix(prefix: string) | ByTag(tag: string)

  predicate InTier(e: DirEntry, tier: Tier)
  {
    IsVideoFile(e) &&
    match tier
    case ByPrefix(p) => StartsWith(Lower(e.name), Lower(p))
    case ByTag(t) => Contains(Lower(e.name), t)
  }

  /** The names one of the two listing loops collects, in listing order. */
  function TierCandidates(dir: seq<DirEntry>, tier: Tier): seq<string>
  {
    if dir == [] then []
    else
      var last := dir[|dir| - 1];
      TierCandidates(dir[..|dir| - 1], tier) + (if InTier(last, tier) then [last.name] else [])
  }

  /** A name collected in a tier belongs to a listed entry of that tier. */
  lemma {:induction false} TierMembers(dir: seq<DirEntry>, tier: Tier)
    ensures forall c :: c in TierCandidates(dir, tier) <==> exists k :: 0 <= k < |dir| && dir[k].name == c && InTier(dir[k], tier)
  {
    if dir != [] {
      var init := dir[..|dir| - 1];
      var last := dir[|dir| - 1];
      TierMembers(init, tier);
      assert TierCandidates(dir, tier) == TierCandidates(init, tier) + (if InTier(last, tier) then [last.name] else []);
      forall c | c in TierCandidates(dir, tier)
        ensures exists k :: 0 <= k < |dir| && dir[k].name == c && InTier(dir[k], tier)
      {
        if c in TierCandidates(init, tier) {
          var k :| 0 <= k < |init| && init[k].name == c && InTier(init[k], tier);
          assert dir[k] == init[k];
        } else {
          assert last.name == c;
        }
      }
      forall c | exists k :: 0 <= k < |dir| && dir[k].name == c && InTier(dir[k], tier)
        ensures c in TierCandidates(dir, tier)
      {
        var k :| 0 <= k < |dir| && dir[k].name == c && InTier(dir[k], tier);
        if k < |dir| - 1 {
          assert init[k] == dir[k];
        }
      }
    }
  }

  /** One of the two listing loops of `_encontrar_video_baixado`. */
  method CollectTier(arquivos: seq<DirEntry>, tier: Tier) returns (candidatos: seq<string>)
    ensures candidatos == TierCandidates(arquivos, tier)
  {
    candidatos := [];
    for i := 0 to |arquivos|
      invariant candidatos == TierCandidates(arquivos[..i], tier)
    {
      assert arquivos[..i + 1][..i] == arquivos[..i];
      if InTier(arquivos[i], tier) {
        candidatos := candidatos + [arquivos[i].name];
      }
    }
    assert arquivos[..|arquivos|] == arquivos;
  }

  /** `f"{nome_base}_{resolucao}p"`. */
  function Prefix(nomeBase: string, resolucao: string): string { nomeBase + "_" + resolucao + "p" }

  /** `f"_{resolucao}p"`. */
  function Tag(resolucao: string): string { "_" + resolucao + "p" }

  /** `f"{prefixo}{ext}"` for every video extension, in order. */
  function ExactNames(prefixo: string): (names: seq<string>)
    ensures |names| == |VideoExtensions|
    ensures forall k :: 0 <= k < |names| ==> names[k] == prefixo + VideoExtensions[k]
  {
    seq(|VideoExtensions|, k requires 0 <= k < |VideoExtensions| => prefixo + VideoExtensions[k])
  }

  /**
   * What `_encontrar_video_baixado` returns; `listable` is false when
   * listing the folder raises `OSError`.
   */
  function Found(dir: seq<DirEntry>, listable: bool, nomeBase: string, resolucao: string): Option<string>
  {
    var exact := Best(dir, ExactNames(Prefix(nomeBase, resolucao)));
    if exact.Some? then exact
    else if !listable then None
    else
      var byPrefix := Best(dir, TierCandidates(dir, ByPrefix(Prefix(nomeBase, resolucao))));
      if byPrefix.Some? then byPrefix
      else Best(dir, TierCandidates(dir, ByTag(Tag(resolucao))))
  }

  /** `_encontrar_video_baixado`. */
  method FindDownloaded(dir: seq<DirEntry>, listable: bool, nomeBase: string, resolucao: string)
    returns (achado: Option<string>)
    ensures achado == Found(dir, listable, nomeBase, resolucao)
  {
    var prefixo := Prefix(nomeBase, resolucao);
    achado := ChooseLargest(dir, ExactNames(prefixo));
    if achado.Some? {
      return;
    }
    if !listable {
      return None;
    }
    var candidatosPrefixo := CollectTier(dir, ByPrefix(prefixo));
    achado := ChooseLargest(dir, candidatosPrefixo);
    if achado.Some? {
      return;
    }
    var candidatosPorTag := CollectTier(dir, ByTag(Tag(resolucao)));
    achado := ChooseLargest(dir, candidatosPorTag);
  }

  /** A listed video file always has a name, so the tiers never offer the empty name. */
  lemma VideoFileNamed(e: DirEntry)
    requires IsVideoFile(e)
    ensures e.name != []
  {
  }

  /** The names of a tier all exist. */
  lemma TierExists(dir: seq<DirEntry>, tier: Tier)
    ensures forall c :: c in TierCandidates(dir, tier) ==> Exists(dir, c)
  {
    TierMembers(dir, tier);
    forall c | c in TierCandidates(dir, tier)
      ensures Exists(dir, c)
    {
      var k :| 0 <= k < |dir| && dir[k].name == c && InTier(dir[k], tier);
      VideoFileNamed(dir[k]);
    }
  }

  /**
   * The exact names come first: when one of them exists, the result is the
   * largest existing one, whatever else the folder holds.
   */
  lemma FoundExactFirst(dir: seq<DirEntry>, listable: bool, nomeBase: string, resolucao: string, k: nat)
    requires k < |VideoExtensions| && Exists(dir, Prefix(nomeBase, resolucao) + VideoExtensions[k])
    ensures var r := Found(dir, listable, nomeBase, resolucao);
      r.Some? && r.value in ExactNames(Prefix(nomeBase, resolucao)) &&
      forall j :: 0 <= j < |VideoExtensions| && Exists(dir, Prefix(nomeBase, resolucao) + VideoExtensions[j]) ==>
        !Larger(Stat(dir, Prefix(nomeBase, resolucao) + VideoExtensions[j]), Stat(dir, r.value))
  {
    var names := ExactNames(Prefix(nomeBase, resolucao));
    BestIsLargest(dir, names);
    assert Exists(dir, names[k]);
  }

  /**
   * Then the prefix tier: with no exact name present and the folder
   * listed, a video file whose name starts with the prefix (any case)
   * wins over any file that only carries the tag.
   */
  lemma FoundPrefixSecond(dir: seq<DirEntry>, nomeBase: string, resolucao: string, k: nat)
    requires forall j :: 0 <= j < |VideoExtensions| ==> !Exists(dir, Prefix(nomeBase, resolucao) + VideoExtensions[j])
    requires k < |dir| && InTier(dir[k], ByPrefix(Prefix(nomeBase, resolucao)))
    ensures var r := Found(dir, true, nomeBase, resolucao);
      r.Some? && r.value in TierCandidates(dir, ByPrefix(Prefix(nomeBase, resolucao)))
  {
    var p := Prefix(nomeBase, resolucao);
    BestIsLargest(dir, ExactNames(p));
    var cands := TierCandidates(dir, ByPrefix(p));
    TierMembers(dir, ByPrefix(p));
    TierExists(dir, ByPrefix(p));
    assert dir[k].name in cands;
    BestIsLargest(dir, cands);
  }

  /**
   * Whatever the tiers, a file is found only if it exists; outside the
   * exact names it is a listed regular video file with the prefix or the
   * tag in its lower-cased name, and only when the folder could be listed.
   */
  lemma FoundIsCandidate(dir: seq<DirEntry>, listable: bool, nomeBase: string, resolucao: string)
    ensures var r := Found(dir, listable, nomeBase, resolucao);
      r.Some? ==> (Exists(dir, r.value) &&
        (r.value in ExactNames(Prefix(nomeBase, resolucao)) ||
         (listable && exists k :: (0 <= k < |dir| && dir[k].name == r.value &&
           (InTier(dir[k], ByPrefix(Prefix(nomeBase, resolucao))) || InTier(dir[k], ByTag(Tag(resolucao))))))))
  {
    var p := Prefix(nomeBase, resolucao);
    BestIsLargest(dir, ExactNames(p));
    BestIsLargest(dir, TierCandidates(dir, ByPrefix(p)));
    BestIsLargest(dir, TierCandidates(dir, ByTag(Tag(resolucao))));
    TierMembers(dir, ByPrefix(p));
    TierMembers(dir, ByTag(Tag(resolucao)));
  }

  /**
   * Nothing is found exactly when no exact name exists and either the
   * folder cannot be listed or no listed video file has the prefix or the tag.
   */
  lemma FoundNothing(dir: seq<DirEntry>, listable: bool, nomeBase: string, resolucao: string)
    ensures Found(dir, listable, nomeBase, resolucao).None? <==>
      (forall j :: 0 <= j < |VideoExtensions| ==> !Exists(dir, Prefix(nomeBase, resolucao) + VideoExtensions[j])) &&
      (!listable || forall k :: 0 <= k < |dir| ==>
        !InTier(dir[k], ByPrefix(Prefix(nomeBase, resolucao))) && !InTier(dir[k], ByTag(Tag(resolucao))))
  {
    var p := Prefix(nomeBase, resolucao);
    var byPrefix := TierCandidates(dir, ByPrefix(p));
    var byTag := TierCandidates(dir, ByTag(Tag(resolucao)));
    BestIsLargest(dir, ExactNames(p));
    BestIsLargest(dir, byPrefix);
    BestIsLargest(dir, byTag);
    TierMembers(dir, ByPrefix(p));
    TierMembers(dir, ByTag(Tag(resolucao)));
    TierExists(dir, ByPrefix(p));
    TierExists(dir, ByTag(Tag(resolucao)));
    if listable {
      forall k | 0 <= k < |dir| && InTier(dir[k], ByPrefix(p))
        ensures Best(dir, byPrefix).Some?
      {
        assert dir[k].name in byPrefix;
      }
      forall k | 0 <= k < |dir| && InTier(dir[k], ByTag(Tag(resolucao)))
        ensures Best(dir, byTag).Some?
      {
        assert dir[k].name in byTag;
      }
    }
  }
}
