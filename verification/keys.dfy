/**
 Derivation of the target object key from the source object key:
 take the POSIX basename, replace every ".json" in it by "_summary.json"
 (Python's `str.replace`), and put it under the "processed_summary/" prefix.
 */
module TargetKeys {

  import opened Base

  const Prefix := "processed_summary/"
  const JsonExt := ".json"
  const SummaryExt := "_summary.json"

  /** `sub` occurs in `s` starting at index `i`. */
  predicate OccursAt(s: string, sub: string, i: nat)
  {
    i + |sub| <= |s| && s[i..i + |sub|] == sub
  }

  /** `sub` is a substring of `s` (Python's `sub in s`). */
  predicate Contains(s: string, sub: string)
  {
    exists i: nat :: i <= |s| && OccursAt(s, sub, i)
  }

  /**
   `os.path.basename` on POSIX paths: everything after the last '/'.
   The result is the longest slash-free suffix of the path.
   */
  function Basename(path: string): (name: string)
    ensures '/' !in name
    ensures |name| <= |path| && name == path[|path| - |name|..]
    ensures |name| < |path| ==> path[|path| - |name| - 1] == '/'
  {
    if path == [] then []
    else if path[|path| - 1] == '/' then []
    else Basename(path[..|path| - 1]) + [path[|path| - 1]]
  }

  /**
   Python's `s.replace(pattern, replacement)`: every non-overlapping
   occurrence of `pattern`, found scanning left to right, is replaced by
   `replacement`. An empty `pattern` matches before every character and at
   the end.
   */
  function ReplaceAll(s: string, pattern: string, replacement: string): string
    decreases |s|
  {
    if pattern == [] then
      if s == [] then replacement else replacement + [s[0]] + ReplaceAll(s[1..], pattern, replacement)
    else if |pattern| <= |s| && s[..|pattern|] == pattern then
      replacement + ReplaceAll(s[|pattern|..], pattern, replacement)
    else if s == [] then []
    else [s[0]] + ReplaceAll(s[1..], pattern, replacement)
  }

  /** Replacing never introduces a '/' that neither the string nor the replacement has. */
  lemma {:induction false} ReplaceAllKeepsSlashFree(s: string, pattern: string, replacement: string)
    requires '/' !in s && '/' !in replacement
    ensures '/' !in ReplaceAll(s, pattern, replacement)
    decreases |s|
  {
    if pattern == [] {
      if s != [] {
        ReplaceAllKeepsSlashFree(s[1..], pattern, replacement);
      }
    } else if |pattern| <= |s| && s[..|pattern|] == pattern {
      ReplaceAllKeepsSlashFree(s[|pattern|..], pattern, replacement);
    } else if s != [] {
      ReplaceAllKeepsSlashFree(s[1..], pattern, replacement);
    }
  }

  /** A string in which the (non-empty) pattern does not occur is left unchanged. */
  lemma {:induction false} ReplaceAllWithoutOccurrence(s: string, pattern: string, replacement: string)
    requires pattern != [] && !Contains(s, pattern)
    ensures ReplaceAll(s, pattern, replacement) == s
    decreases |s|
  {
    if s != [] {
      assert !OccursAt(s, pattern, 0);
      ShiftedOccurrence(s, pattern);
      ReplaceAllWithoutOccurrence(s[1..], pattern, replacement);
    }
  }

  /** An occurrence in the tail of a string is an occurrence in the string. */
  lemma ShiftedOccurrence(s: string, sub: string)
    requires s != []
    ensures Contains(s[1..], sub) ==> Contains(s, sub)
  {
    if Contains(s[1..], sub) {
      var i: nat :| i <= |s[1..]| && OccursAt(s[1..], sub, i);
      assert s[i + 1..i + 1 + |sub|] == s[1..][i..i + |sub|];
      assert OccursAt(s, sub, i + 1);
    }
  }

  /** The key under which the projection of `sourceKey` is written. */
  function TargetKey(sourceKey: string): string
  {
    Prefix + Rename(Basename(sourceKey))
  }

  /**
   Every target key lies directly under the prefix: it starts with
   "processed_summary/" and has no further '/'. A basename without ".json"
   is used as it is.
   */
  lemma TargetKeyShape(sourceKey: string)
    ensures |Prefix| <= |TargetKey(sourceKey)| && TargetKey(sourceKey)[..|Prefix|] == Prefix
    ensures '/' !in TargetKey(sourceKey)[|Prefix|..]
    ensures !Contains(Basename(sourceKey), JsonExt) ==> TargetKey(sourceKey) == Prefix + Basename(sourceKey)
  {
    var name := Basename(sourceKey);
    var renamed := Rename(name);
    RenameKeepsSlashFree(name);
    RenameWithoutJson(name);
    assert (Prefix + renamed)[..|Prefix|] == Prefix;
    assert (Prefix + renamed)[|Prefix|..] == renamed;
  }

  /** The renamed basename has no '/'. */
  lemma RenameKeepsSlashFree(name: string)
    requires '/' !in name
    ensures '/' !in Rename(name)
  {
    ReplaceAllKeepsSlashFree(name, JsonExt, SummaryExt);
  }

  /** A basename without ".json" is not renamed. */
  lemma RenameWithoutJson(name: string)
    ensures !Contains(name, JsonExt) ==> Rename(name) == name
  {
    if !Contains(name, JsonExt) {
      ReplaceAllWithoutOccurrence(name, JsonExt, SummaryExt);
    }
  }

  /** The renaming applied to the basename: every ".json" becomes "_summary.json". */
  function Rename(name: string): string
  {
    ReplaceAll(name, JsonExt, SummaryExt)
  }

  /** The reverse renaming: every "_summary.json" becomes ".json". */
  function Restore(name: string): string
  {
    ReplaceAll(name, SummaryExt, JsonExt)
  }

  /**
   The basename a target key was derived from: drop the prefix and turn every
   "_summary.json" back into ".json".
   */
  function SourceName(key: string): Option<string>
  {
    if |Prefix| <= |key| && key[..|Prefix|] == Prefix then
      Some(Restore(key[|Prefix|..]))
    else None
  }

  /**
   A renamed name that does not begin with the '_' of a replacement begins
   with the name's first character, copied over.
   */
  lemma RenameCopiedHead(u: string)
    requires Rename(u) != [] && Rename(u)[0] != '_'
    ensures u != [] && Rename(u) == [u[0]] + Rename(u[1..])
  {
  }

  /**
   A prefix without '_' of a renamed name was copied from the name
   unchanged: no replacement text starts inside it.
   */
  lemma {:induction false} UnmatchedPrefix(u: string, w: string)
    requires '_' !in w
    requires |w| <= |Rename(u)| && Rename(u)[..|w|] == w
    ensures |w| <= |u| && u[..|w|] == w
    ensures Rename(u) == w + Rename(u[|w|..])
  {
    if w == [] {
      assert u[|w|..] == u;
    } else {
      var w' := w[1..];
      assert u != [] && u[0] == w[0] && Rename(u) == [u[0]] + Rename(u[1..]) by {
        assert Rename(u)[0] == w[0] != '_';
        RenameCopiedHead(u);
      }
      assert '_' !in w' && |w'| <= |Rename(u[1..])| && Rename(u[1..])[..|w'|] == w' by {
        assert Rename(u)[1..|w|] == Rename(u[1..])[..|w'|];
      }
      UnmatchedPrefix(u[1..], w');
      assert u[..|w|] == w by {
        assert u[..|w|] == [u[0]] + u[1..][..|w'|];
      }
      assert Rename(u) == w + Rename(u[|w|..]) by {
        assert u[1..][|w'|..] == u[|w|..];
        assert w == [w[0]] + w';
      }
    }
  }

  /**
   A renamed name never starts with ".json": a copied '.' that began a
   ".json" would have been replaced.
   */
  lemma NoLeadingJson(v: string)
    ensures !(|JsonExt| <= |Rename(v)| && Rename(v)[..|JsonExt|] == JsonExt)
  {
    if |JsonExt| <= |Rename(v)| && '_' !in Rename(v)[..|JsonExt|] {
      UnmatchedPrefix(v, Rename(v)[..|JsonExt|]);
    }
  }

  /**
   A renamed name never starts with "summary.json" (the replacement text
   without its leading '_'): the ".json" after "summary" would have been
   copied from the name, and so replaced.
   */
  lemma NoBareSummary(u: string)
    ensures !(|SummaryExt| - 1 <= |Rename(u)| && Rename(u)[..|SummaryExt| - 1] == SummaryExt[1..])
  {
    var r := Rename(u);
    var bare := SummaryExt[1..];
    var word := |bare| - |JsonExt|;  // the length of "summary"
    assert bare[..word] == "summary" && bare[word..] == JsonExt;
    assert |bare| <= |r| && r[..|bare|] == bare ==> r[..word] == bare[..word] && r[word..][..|JsonExt|] == bare[word..];
    if word <= |r| && '_' !in r[..word] {
      UnmatchedPrefix(u, r[..word]);
      NoLeadingJson(u[word..]);
      assert r[word..] == Rename(u[word..]);
    }
  }

  /** Restoring a renamed name gives the name back. */
  lemma {:induction false} RestoreRename(s: string)
    ensures Restore(Rename(s)) == s
    decreases |s|
  {
    if |JsonExt| <= |s| && s[..|JsonExt|] == JsonExt {
      var t := Rename(s[|JsonExt|..]);
      assert Rename(s) == SummaryExt + t;
      assert (SummaryExt + t)[..|SummaryExt|] == SummaryExt;
      assert (SummaryExt + t)[|SummaryExt|..] == t;
      RestoreRename(s[|JsonExt|..]);
      assert s == JsonExt + s[|JsonExt|..];
    } else if s != [] {
      var t := Rename(s[1..]);
      assert Rename(s) == [s[0]] + t;
      NoBareSummary(s[1..]);
      if |SummaryExt| <= |[s[0]] + t| {
        assert ([s[0]] + t)[..|SummaryExt|] == [s[0]] + t[..|SummaryExt| - 1];
      }
      RestoreRename(s[1..]);
      assert ([s[0]] + t)[1..] == t;
    }
  }

  /** The target key determines the basename it was derived from. */
  lemma SourceNameOfTargetKey(sourceKey: string)
    ensures SourceName(TargetKey(sourceKey)) == Some(Basename(sourceKey))
  {
    var key := TargetKey(sourceKey);
    assert key[..|Prefix|] == Prefix;
    assert key[|Prefix|..] == Rename(Basename(sourceKey));
    RestoreRename(Basename(sourceKey));
  }

  /**
   Two source keys share a target key exactly when they share a basename, so
   objects with different file names are never written over one another.
   */
  lemma TargetKeyInjective(k1: string, k2: string)
    ensures TargetKey(k1) == TargetKey(k2) <==> Basename(k1) == Basename(k2)
  {
    SourceNameOfTargetKey(k1);
    SourceNameOfTargetKey(k2);
  }

  /** The basename of a path is what follows its last '/'. */
  lemma {:induction false} BasenameAfterSlash(dir: string, name: string)
    requires '/' !in name
    ensures Basename(dir + "/" + name) == name
    decreases |name|
  {
    var path := dir + "/" + name;
    if name != [] {
      var init := name[..|name| - 1];
      assert path[..|path| - 1] == dir + "/" + init;
      assert path[|path| - 1] == name[|name| - 1];
      BasenameAfterSlash(dir, init);
      assert init + [name[|name| - 1]] == name;
    }
  }

  /** A leading part without '.' is copied unchanged by the renaming. */
  lemma {:induction false} RenameCopies(w: string, rest: string)
    requires '.' !in w
    ensures Rename(w + rest) == w + Rename(rest)
  {
    if w != [] {
      var s := w + rest;
      assert s[0] == w[0] != '.' == JsonExt[0];
      assert s[1..] == w[1..] + rest;
      assert Rename(s) == [w[0]] + Rename(s[1..]);
      RenameCopies(w[1..], rest);
      assert [w[0]] + (w[1..] + Rename(rest)) == w + Rename(rest);
    } else {
      assert w + rest == rest;
    }
  }

  /** A leading ".json" is replaced and the renaming goes on after it. */
  lemma RenameOfJson(rest: string)
    ensures Rename(JsonExt + rest) == SummaryExt + Rename(rest)
  {
    assert (JsonExt + rest)[..|JsonExt|] == JsonExt;
    assert (JsonExt + rest)[|JsonExt|..] == rest;
  }

  /** The target key of a file in a directory is the prefix and the renamed file name. */
  lemma TargetKeyOfName(dir: string, name: string)
    requires '/' !in name
    ensures TargetKey(dir + "/" + name) == Prefix + Rename(name)
  {
    BasenameAfterSlash(dir, name);
  }

  /**
   A leading part of the name at none of whose positions a ".json" starts is
   copied unchanged by the renaming.
   */
  lemma {:induction false} RenameCopiesUnmatched(w: string, rest: string)
    requires forall p :: 0 <= p < |w| ==> !OccursAt(w + rest, JsonExt, p)
    ensures Rename(w + rest) == w + Rename(rest)
    decreases |w|
  {
    var s := w + rest;
    if w != [] {
      assert !OccursAt(s, JsonExt, 0);
      assert s[1..] == w[1..] + rest;
      forall p | 0 <= p < |w[1..]|
        ensures !OccursAt(w[1..] + rest, JsonExt, p)
      {
        assert !OccursAt(s, JsonExt, p + 1);
        if p + |JsonExt| <= |s[1..]| {
          assert s[1..][p..p + |JsonExt|] == s[p + 1..p + 1 + |JsonExt|];
        }
      }
      assert Rename(s) == [w[0]] + Rename(s[1..]);
      RenameCopiesUnmatched(w[1..], rest);
      assert [w[0]] + (w[1..] + Rename(rest)) == w + Rename(rest);
    } else {
      assert s == rest;
    }
  }

  /**
   No ".json" starts inside a stem that does not contain one, when a ".json"
   follows the stem: an occurrence reaching past the stem would need a '.'
   where ".json" has a letter.
   */
  lemma StemBeforeJson(stem: string, rest: string)
    requires !Contains(stem, JsonExt)
    ensures forall p :: 0 <= p < |stem| ==> !OccursAt(stem + JsonExt + rest, JsonExt, p)
  {
    var s := stem + JsonExt + rest;
    forall p | 0 <= p < |stem|
      ensures !OccursAt(s, JsonExt, p)
    {
      if p + |JsonExt| <= |stem| {
        assert !OccursAt(stem, JsonExt, p);
        assert s[p..p + |JsonExt|] == stem[p..p + |JsonExt|];
      } else {
        var q := |stem| - p;
        assert s[p + q] == '.' != JsonExt[q];
        if p + |JsonExt| <= |s| {
          assert s[p..p + |JsonExt|][q] == s[p + q];
        }
      }
    }
  }

  /**
   A file "<stem>.json" in any directory is written as
   "processed_summary/<stem>_summary.json", for every stem that has no '/'
   and no ".json" of its own (so "data.v2.json" too).
   */
  lemma TargetKeyOfJsonFile(dir: string, stem: string)
    requires '/' !in stem && !Contains(stem, JsonExt)
    ensures TargetKey(dir + "/" + stem + JsonExt) == Prefix + stem + SummaryExt
  {
    var name := stem + JsonExt;
    assert dir + "/" + stem + JsonExt == dir + "/" + name;
    TargetKeyOfName(dir, name);
    StemBeforeJson(stem, []);
    assert stem + JsonExt + [] == name;
    RenameCopiesUnmatched(stem, JsonExt);
    RenameOfJson([]);
    assert JsonExt + [] == JsonExt;
  }

  /**
   Every ".json" is replaced, not only a trailing one: "<stem>.json.json"
   becomes "<stem>_summary.json_summary.json".
   */
  lemma TargetKeyOfDoubleJson(dir: string, stem: string)
    requires '/' !in stem && !Contains(stem, JsonExt)
    ensures TargetKey(dir + "/" + stem + JsonExt + JsonExt) == Prefix + stem + SummaryExt + SummaryExt
  {
    var tail := JsonExt + JsonExt;
    var name := stem + tail;
    assert dir + "/" + stem + JsonExt + JsonExt == dir + "/" + name;
    TargetKeyOfName(dir, name);
    StemBeforeJson(stem, JsonExt);
    assert stem + JsonExt + JsonExt == name;
    RenameCopiesUnmatched(stem, tail);
    RenameOfJson(JsonExt);
    RenameOfJson([]);
    assert JsonExt + [] == JsonExt;
  }

  /**
   A ".json" inside the name is replaced as well: "<stem>.json<rest>" becomes
   "<stem>_summary.json<rest>" when neither the stem nor the rest holds a
   ".json" of its own.
   */
  lemma TargetKeyOfInnerJson(dir: string, stem: string, rest: string)
    requires '/' !in stem && !Contains(stem, JsonExt)
    requires '/' !in rest && !Contains(rest, JsonExt)
    ensures TargetKey(dir + "/" + stem + JsonExt + rest) == Prefix + stem + SummaryExt + rest
  {
    var tail := JsonExt + rest;
    var name := stem + tail;
    assert dir + "/" + stem + JsonExt + rest == dir + "/" + name;
    TargetKeyOfName(dir, name);
    StemBeforeJson(stem, rest);
    assert stem + JsonExt + rest == name;
    RenameCopiesUnmatched(stem, tail);
    RenameOfJson(rest);
    RenameWithoutJson(rest);
    assert Rename(name) == stem + SummaryExt + rest;
  }

  /** A name without ".json" is kept as it is: no "_summary" is added. */
  lemma TargetKeyOfOtherFile(dir: string, name: string)
    requires '/' !in name && !Contains(name, JsonExt)
    ensures TargetKey(dir + "/" + name) == Prefix + name
  {
    TargetKeyOfName(dir, name);
    RenameWithoutJson(name);
  }

  /** A key ending in '/' has an empty basename and names the prefix itself. */
  lemma TargetKeyOfFolder(dir: string)
    ensures TargetKey(dir + "/") == Prefix
  {
    assert (dir + "/")[|dir + "/"| - 1] == '/';
  }
}
