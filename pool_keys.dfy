/**
 * The two ways the pool derives a key string. Acquire builds it from the requested
 * model name as given; release rebuilds it from the handle and strips one leading
 * "models/" from the name the handle stores. The two agree only when no prefix is involved.
 */
module PoolKeys {
  import opened GenerativeModels

  const ModelsPrefix: string := "models/"

  predicate HasModelsPrefix(name: string)
  {
    |name| >= |ModelsPrefix| && name[..|ModelsPrefix|] == ModelsPrefix
  }

  /** The key acquire uses: "project:region:model", with the model name taken verbatim. */
  function GetPoolKey(project: string, region: string, model: string): (r: string)
    // the key is as long as its three parts plus the two separators; it starts with the
    // project and a separator and ends with a separator and the model name
    ensures |r| == |project| + |region| + |model| + 2
    ensures r[..|project|] == project && r[|project|] == ':'
    ensures r[|r| - |model|..] == model && r[|r| - |model| - 1] == ':'
  {
    project + ":" + region + ":" + model
  }

  /** The stored model name with exactly one leading "models/" removed, if it has one. */
  function NormalizeModelName(name: string): (r: string)
    ensures HasModelsPrefix(name) ==> ModelsPrefix + r == name
    ensures !HasModelsPrefix(name) ==> r == name
  {
    if HasModelsPrefix(name) then name[|ModelsPrefix|..] else name
  }

  /** The key release uses, rebuilt from the identity the handle records. */
  function GetPoolKeyFromModel(model: GenerativeModel): (r: string)
    // the key built from the stored name, one "models/" shorter when the name carries one
    ensures |r| + (if HasModelsPrefix(model.Model) then |ModelsPrefix| else 0) ==
            |model.ProjectId| + |model.Region| + |model.Model| + 2
  {
    GetPoolKey(model.ProjectId, model.Region, NormalizeModelName(model.Model))
  }

  /** Stripping removes exactly one prefix: a name "models/" + m normalises to m, even when m itself starts with "models/". */
  lemma {:induction false} StripsExactlyOnePrefix(m: string)
    ensures NormalizeModelName(ModelsPrefix + m) == m
  {
    assert (ModelsPrefix + m)[..|ModelsPrefix|] == ModelsPrefix;
    assert (ModelsPrefix + m)[|ModelsPrefix|..] == m;
  }

  /** For a stored name without the prefix, release and acquire compute the same key. */
  lemma KeysAgreeWithoutPrefix(model: GenerativeModel)
    requires !HasModelsPrefix(model.Model)
    ensures GetPoolKeyFromModel(model) == GetPoolKey(model.ProjectId, model.Region, model.Model)
  {
  }

  /**
   * For a stored name with the prefix, release computes a different key from the one
   * acquire would compute for that same name.
   */
  lemma KeysDivergeWithPrefix(model: GenerativeModel)
    requires HasModelsPrefix(model.Model)
    ensures GetPoolKeyFromModel(model) != GetPoolKey(model.ProjectId, model.Region, model.Model)
  {
  }

  /**
   * On the release side a name with the prefix and the same name without it share one key,
   * the acquire key of the bare name. The bare name must not itself start with "models/":
   * "models/models/x" and "models/x" are released under different keys.
   */
  lemma PrefixedAndBareNamesShareReleaseKey(a: GenerativeModel, b: GenerativeModel, m: string)
    requires a.ProjectId == b.ProjectId && a.Region == b.Region
    requires a.Model == ModelsPrefix + m && b.Model == m && !HasModelsPrefix(m)
    ensures GetPoolKeyFromModel(a) == GetPoolKeyFromModel(b) == GetPoolKey(b.ProjectId, b.Region, m)
  {
    StripsExactlyOnePrefix(m);
  }

  /** "models/gemini-pro" and "gemini-pro" are released under one key. */
  lemma GeminiProNamesShareReleaseKey(a: GenerativeModel, b: GenerativeModel)
    requires a.ProjectId == b.ProjectId && a.Region == b.Region
    requires a.Model == "models/gemini-pro" && b.Model == "gemini-pro"
    ensures GetPoolKeyFromModel(a) == GetPoolKeyFromModel(b)
  {
    assert a.Model == ModelsPrefix + "gemini-pro";
    assert !HasModelsPrefix(b.Model) by {
      assert b.Model[0] == 'g' && ModelsPrefix[0] == 'm';
    }
    PrefixedAndBareNamesShareReleaseKey(a, b, "gemini-pro");
  }

  /** On the acquire side they do not: the requested name is not normalised. */
  lemma PrefixedAndBareNamesSplitAcquireKeys(project: string, region: string)
    ensures GetPoolKey(project, region, "models/gemini-pro") != GetPoolKey(project, region, "gemini-pro")
  {
  }

  /** The separator is not escaped: a project and a region containing ':' can produce the same key. */
  lemma DistinctIdentitiesCanShareKey()
    ensures GetPoolKey("org:proj", "us", "m") == GetPoolKey("org", "proj:us", "m")
  {
  }
}
