/** Paths of properties: which paths a key lies under, and the topic names made of them. */
module PropertyPaths {
  import opened Wrappers
  import opened Text

  /** The path itself, or one above it in the tree. */
  predicate Covers(p: string, key: string) {
    p == key || (p != "" && p + "." <= key)
  }

  /** The parts of the path before a delimiter at index `from` or later. */
  function Cuts(path: string, delimiter: char, from: nat): seq<string>
    decreases |path| - from
  {
    if from >= |path| then []
    else (if path[from] == delimiter then [path[..from]] else []) + Cuts(path, delimiter, from + 1)
  }

  function Subpaths(path: string, delimiter: char): seq<string> {
    if path == "" then [] else Cuts(path, delimiter, 1) + [path]
  }

  /** The cuts begin where searching finds a delimiter. */
  function CutsAt(path: string, delimiter: char, found: Option<nat>): seq<string>
    requires found.Some? ==> found.value < |path|
  {
    if found.None? then [] else [path[..found.value]] + Cuts(path, delimiter, found.value + 1)
  }

  lemma {:induction false} CutsFind(path: string, delimiter: char, from: nat)
    ensures Cuts(path, delimiter, from) == CutsAt(path, delimiter, Find(path, [delimiter], from))
    decreases |path| - from
  {
    if from < |path| {
      assert path[from..from + 1] == [path[from]];
      if path[from] != delimiter {
        CutsFind(path, delimiter, from + 1);
        assert Find(path, [delimiter], from) == Find(path, [delimiter], from + 1);
      }
    }
  }

  /** The search starts behind the first character, so a leading delimiter ends no sub-path. */
  method GetSubpaths(path: string, delimiter: char) returns (subpaths: seq<string>)
    ensures subpaths == Subpaths(path, delimiter)
  {
    hide Cuts;
    subpaths := [];
    if path != "" {
      var index := 0;
      while true
        invariant 0 <= index < |path|
        invariant subpaths + Cuts(path, delimiter, index + 1) == Cuts(path, delimiter, 1)
        decreases |path| - index
      {
        var next := Find(path, [delimiter], index + 1);
        CutsFind(path, delimiter, index + 1);
        if next.None? {
          break;
        }
        index := next.value;
        assert subpaths + ([path[..index]] + Cuts(path, delimiter, index + 1)) == Cuts(path, delimiter, 1);
        subpaths := subpaths + [path[..index]];
      }
      subpaths := subpaths + [path];
    }
  }

  /** How often a path is in a list. */
  function Times(list: seq<string>, p: string): nat {
    if list == [] then 0 else (if list[0] == p then 1 else 0) + Times(list[1..], p)
  }

  lemma {:induction false} TimesSplit(a: seq<string>, b: seq<string>, p: string)
    ensures Times(a + b, p) == Times(a, p) + Times(b, p)
  {
    if a == [] {
      assert a + b == b;
    } else {
      assert (a + b)[1..] == a[1..] + b;
      TimesSplit(a[1..], b, p);
    }
  }

  lemma {:induction false} CutsTimes(path: string, delimiter: char, from: nat, p: string)
    ensures Times(Cuts(path, delimiter, from), p) == if from <= |p| && p + [delimiter] <= path then 1 else 0
    decreases |path| - from
  {
    if from < |path| {
      var first := if path[from] == delimiter then [path[..from]] else [];
      TimesSplit(first, Cuts(path, delimiter, from + 1), p);
      CutsTimes(path, delimiter, from + 1, p);
      if |p| == from {
        assert p + [delimiter] <= path <==> p == path[..from] && path[from] == delimiter;
      }
    }
  }

  /** The sub-paths of a key are exactly the paths it lies under, each enumerated once; the empty key has none. */
  lemma SubpathsAreThoseAbove(key: string, p: string)
    ensures Times(Subpaths(key, '.'), p) == if key != "" && Covers(p, key) then 1 else 0
  {
    if key != "" {
      TimesSplit(Cuts(key, '.', 1), [key], p);
      CutsTimes(key, '.', 1, p);
      assert "." == ['.'];
    }
  }

  lemma {:induction false} CutsGrow(path: string, delimiter: char, from: nat, i: nat, j: nat)
    requires i <= j < |Cuts(path, delimiter, from)|
    ensures from <= |Cuts(path, delimiter, from)[i]| < |path|
    ensures i < j ==> |Cuts(path, delimiter, from)[i]| < |Cuts(path, delimiter, from)[j]|
    decreases |path| - from
  {
    if path[from] == delimiter {
      if i > 0 {
        CutsGrow(path, delimiter, from + 1, i - 1, j - 1);
      } else if j > 0 {
        CutsGrow(path, delimiter, from + 1, j - 1, j - 1);
      }
    } else {
      CutsGrow(path, delimiter, from + 1, i, j);
    }
  }

  /** They are enumerated from the top of the tree down to the key itself. */
  lemma SubpathsGrow(key: string, delimiter: char, i: nat, j: nat)
    requires i < j < |Subpaths(key, delimiter)|
    ensures |Subpaths(key, delimiter)[i]| < |Subpaths(key, delimiter)[j]|
    ensures Subpaths(key, delimiter)[|Subpaths(key, delimiter)| - 1] == key
  {
    var cuts := Cuts(key, delimiter, 1);
    if j < |cuts| {
      CutsGrow(key, delimiter, 1, i, j);
    } else {
      CutsGrow(key, delimiter, 1, i, i);
    }
  }

  function BuildTopicName(path: string): string {
    "prop-change(" + path + ")"
  }

  /** Different paths have different topics. */
  lemma TopicsDiffer(p: string, q: string)
    requires BuildTopicName(p) == BuildTopicName(q)
    ensures p == q
  {
    var prefix := "prop-change(";
    assert |p| == |q|;
    assert p == BuildTopicName(p)[|prefix|..|prefix| + |p|];
  }
}
