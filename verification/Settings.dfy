/**
 internal/engine/provision/settings.go: the recursive merge of the seed settings into the
 user's settings, and the settings step built on it.
 */
module Settings {
  import opened Options

  /** A JSON value: an object, or anything else (the merge never looks inside the rest). */
  datatype Json = Obj(doc: Doc) | Leaf(text: string)

  type Doc = map<string, Json>

  const SANDBOX: string := "sandbox"

  /** seedManagedKeys: the seed decides these. */
  predicate Managed(key: string) {
    key == "hooks" || key == "statusLine" || key == "env"
  }

  // ---------------------------------------------------------------- the merge

  /** What the merge makes of one key. */
  function MergedAt(dest: Doc, seed: Doc, key: string): Json
    requires key in dest || key in seed
    decreases Obj(dest), 0
  {
    if key in seed && (Managed(key) || key !in dest) then seed[key]
    else if key in seed && dest[key].Obj? && seed[key].Obj? then Obj(Merge(dest[key].doc, seed[key].doc))
    else dest[key]
  }

  function Merge(dest: Doc, seed: Doc): Doc
    decreases Obj(dest), 1
  {
    map key | key in dest.Keys + seed.Keys :: MergedAt(dest, seed, key)
  }

  /** mergeSettings: a copy of dest, then the keys of the seed, in whatever order the two
      objects list their keys. */
  method MergeSettings(dest: Doc, seed: Doc) returns (out: Doc)
    ensures out == Merge(dest, seed)
    decreases Obj(dest)
  {
    out := map[];
    var keys := dest.Keys;
    while keys != {}
      invariant keys <= dest.Keys && out.Keys == dest.Keys - keys
      invariant forall key :: key in out ==> out[key] == dest[key]
    {
      var key :| key in keys;
      out := out[key := dest[key]];
      keys := keys - {key};
    }
    keys := seed.Keys;
    while keys != {}
      invariant keys <= seed.Keys && out.Keys == dest.Keys + (seed.Keys - keys)
      invariant forall key :: key in out ==>
                  out[key] == if key in keys || key !in seed then dest[key] else MergedAt(dest, seed, key)
    {
      var key :| key in keys;
      keys := keys - {key};
      var sv := seed[key];
      if Managed(key) {
        out := out[key := sv];
        continue;
      }
      if key in out && out[key].Obj? && sv.Obj? {
        var inner := MergeSettings(out[key].doc, sv.doc);
        out := out[key := Obj(inner)];
        continue;
      }
      if key !in out {
        out := out[key := sv];
      }
    }
  }

  // ---------------------------------------------------------------- what it means

  /** The object reached by a path of keys, if there is one. */
  function Level(doc: Doc, path: seq<string>): Option<Doc>
    decreases path
  {
    if path == [] then Some(doc)
    else if path[0] in doc && doc[path[0]].Obj? then Level(doc[path[0]].doc, path[1..])
    else None
  }

  /** The objects at one path of both documents are merged with each other; a managed key on
      the way belongs to the seed alone. */
  predicate Shared(dest: Doc, seed: Doc, path: seq<string>) {
    && Level(dest, path).Some? && Level(seed, path).Some?
    && forall i :: 0 <= i < |path| ==> !Managed(path[i])
  }

  lemma {:induction false} LevelsAreMerged(dest: Doc, seed: Doc, path: seq<string>)
    requires Shared(dest, seed, path)
    ensures Level(Merge(dest, seed), path) == Some(Merge(Level(dest, path).value, Level(seed, path).value))
    decreases path
  {
    if path != [] {
      var key := path[0];
      assert Merge(dest, seed)[key] == Obj(Merge(dest[key].doc, seed[key].doc));
      assert Shared(dest[key].doc, seed[key].doc, path[1..]) by {
        assert forall i :: 0 <= i < |path[1..]| ==> path[1..][i] == path[i + 1];
      }
      LevelsAreMerged(dest[key].doc, seed[key].doc, path[1..]);
    }
  }

  /**
   At every merged level: the keys are those of both; a managed key of the seed, and a key
   only the seed has, take the seed's value; whatever else is not an object on both sides
   keeps the destination's value.
   */
  lemma EveryLevel(dest: Doc, seed: Doc, path: seq<string>, key: string)
    requires Shared(dest, seed, path)
    ensures Level(Merge(dest, seed), path).Some?
    ensures var d, s, m := Level(dest, path).value, Level(seed, path).value, Level(Merge(dest, seed), path).value;
            && (key in m <==> key in d || key in s)
            && (key in s && (Managed(key) || key !in d) ==> m[key] == s[key])
            && (key in d && (key !in s || (!Managed(key) && !(d[key].Obj? && s[key].Obj?))) ==> m[key] == d[key])
  {
    LevelsAreMerged(dest, seed, path);
  }

  lemma {:induction false} MergeSelf(s: Doc)
    ensures Merge(s, s) == s
    decreases Obj(s)
  {
    forall key | key in s ensures MergedAt(s, s, key) == s[key] {
      if s[key].Obj? {
        MergeSelf(s[key].doc);
      }
    }
  }

  /** A second merge of the same seed changes nothing. */
  lemma {:induction false} MergeTwice(d: Doc, s: Doc)
    ensures Merge(Merge(d, s), s) == Merge(d, s)
    decreases Obj(d)
  {
    var m := Merge(d, s);
    forall key | key in m ensures MergedAt(m, s, key) == m[key] {
      MergedTwiceAt(d, s, key);
    }
  }

  lemma {:induction false} MergedTwiceAt(d: Doc, s: Doc, key: string)
    requires key in d || key in s
    ensures MergedAt(Merge(d, s), s, key) == Merge(d, s)[key]
    decreases Obj(d), 0
  {
    if key in s && !Managed(key) && s[key].Obj? {
      if key !in d {
        MergeSelf(s[key].doc);
      } else if d[key].Obj? {
        MergeTwice(d[key].doc, s[key].doc);
      }
    }
  }

  /** What the settings step writes: the merge without its top-level sandbox key. */
  function Cleaned(dest: Doc, seed: Doc): Doc {
    Merge(dest, seed) - {SANDBOX}
  }

  /** Running the step again changes nothing, also with the sandbox key deleted each time. */
  lemma CleanedTwice(d: Doc, s: Doc)
    ensures Cleaned(Cleaned(d, s), s) == Cleaned(d, s)
  {
    var c := Cleaned(d, s);
    forall key | key in c ensures MergedAt(c, s, key) == c[key] {
      MergedTwiceAt(d, s, key);
    }
  }

  // ---------------------------------------------------------------- the step

  /** A settings file as readJSON sees it. */
  datatype File = Missing | Bad | Good(doc: Doc)

  /** settingsStep.Run below the lock: merge when both files can be read and the result
      written, else put the seed in place of the file. */
  function Installed(dest: File, seed: File, written: bool): File
    requires seed != Missing
  {
    if dest.Good? && seed.Good? && written then Good(Cleaned(dest.doc, seed.doc)) else seed
  }

  /** settingsStep.Check on the two files, the directories being there. */
  predicate Checked(dest: File, seed: File) {
    if seed == Missing then true
    else if dest == Missing then false
    else if seed.Bad? || dest.Bad? then true
    else forall key :: key in seed.doc && Managed(key) ==> key in dest.doc
  }

  /** The keys that the seed decides whatever was there are hooks, statusLine and env. */
  lemma SeedDecidesThree(key: string)
    ensures (forall dest: Doc, seed: Doc :: key in dest && key in seed ==> Merge(dest, seed)[key] == seed[key])
       <==> key in {"hooks", "statusLine", "env"}
  {
    if key !in {"hooks", "statusLine", "env"} {
      var dest, seed := map[key := Leaf("own")], map[key := Leaf("new")];
      assert Merge(dest, seed)[key] == MergedAt(dest, seed, key) == Leaf("own") != seed[key];
    }
  }

  /** The Check asks for a Run exactly when there is a seed and the settings file is missing, or
      both can be read and the file lacks one of the three keys that the seed has. */
  lemma CheckAsksForRun(dest: File, seed: File)
    ensures !Checked(dest, seed)
       <==> && !seed.Missing?
            && (dest.Missing? || (seed.Good? && dest.Good?
                  && exists key :: key in {"hooks", "statusLine", "env"} && key in seed.doc && key !in dest.doc))
    ensures !Checked(dest, seed) ==> forall written :: Installed(dest, seed, written) != dest
  {
    if !Checked(dest, seed) && dest.Good? {
      var key :| key in seed.doc && Managed(key) && key !in dest.doc;
      assert key in Cleaned(dest.doc, seed.doc) <==> key != SANDBOX;
      assert key[0] == 'h' || key[0] == 'e' || key[1] == 't';
    }
  }

  /** The step's Run makes its own Check true.  A second Run that can write leaves the file
      as it is, unless the first one copied a seed that has a sandbox key. */
  lemma StepIsIdempotent(dest: File, seed: File, written: bool)
    requires seed != Missing
    ensures Checked(Installed(dest, seed, written), seed)
    ensures Installed(Installed(dest, seed, written), seed, true) == Installed(dest, seed, written)
            <==> (dest.Good? && written) || seed.Bad? || SANDBOX !in seed.doc
  {
    if seed.Good? {
      MergeSelf(seed.doc);
      if dest.Good? {
        CleanedTwice(dest.doc, seed.doc);
      }
    }
  }

  /** The failing input: without a settings file, the first Run copies a seed that has a
      sandbox key, and the second one deletes that key. */
  lemma SandboxGoesLater(value: Json)
    ensures var seed := Good(map["sandbox" := value]);
            && Installed(Missing, seed, true) == seed
            && Installed(seed, seed, true) == Good(map[])
  {
    assert Cleaned(map[SANDBOX := value], map[SANDBOX := value]) == map[];
  }
}
