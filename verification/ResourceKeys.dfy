/** Named-lease resource keys, and the prefixes that list them. */
module ResourceKeys {
  import opened Options
  import opened Collections
  import opened Shell
  import opened Texts

  predicate IsKeyStart(c: char) { 'a' <= c <= 'z' || '0' <= c <= '9' }

  predicate IsKeyChar(c: char) { IsKeyStart(c) || c in "._-" }

  predicate ValidSegment(s: string) {
    s != "" && |s| <= 63 && s != "." && s != ".." && IsKeyStart(s[0]) && forall c | c in s :: IsKeyChar(c)
  }

  function Segments(text: string): seq<string> { Split(text, IsSlash) }

  /** `validate_resource_key`. */
  predicate ValidKey(key: string) {
    && key != "" && |key| <= 255 && key[0] != '/' && key[|key| - 1] != '/'
    && forall s | s in Segments(key) :: ValidSegment(s)
  }

  /** `validate_resource_prefix`. */
  predicate ValidPrefix(prefix: string) {
    prefix != "" && prefix[|prefix| - 1] == '/' && |prefix| <= 255 && ValidKey(prefix[..|prefix| - 1])
  }

  lemma {:induction false} JoinedAppend(a: seq<string>, b: seq<string>, separator: string)
    requires a != [] && b != []
    ensures Joined(a + b, separator) == Joined(a, separator) + separator + Joined(b, separator)
    decreases |a|
  {
    assert (a + b)[0] == a[0] && (a + b)[1..] == a[1..] + b;
    if |a| > 1 {
      JoinedAppend(a[1..], b, separator);
    } else {
      assert a[1..] + b == b;
    }
  }

  lemma {:induction false} JoinedSplit(text: string)
    ensures Joined(Segments(text), "/") == text
  {
    if text != "" {
      var rest := Segments(text[1..]);
      JoinedSplit(text[1..]);
      assert text == [text[0]] + text[1..];
      if text[0] == '/' {
        assert ([""] + rest)[1..] == rest;
      } else {
        var all := [[text[0]] + rest[0]] + rest[1..];
        assert all[1..] == rest[1..];
        if |rest| > 1 {
          assert Joined(rest, "/") == rest[0] + "/" + Joined(rest[1..], "/");
        }
      }
    }
  }

  /** A listing prefix matches whole segments only: a key starts with the prefix text exactly
      when the segments of the prefix are a proper leading part of the key's.  So
      `waykeeper/` never lists `waykeeper2/...`. */
  lemma PrefixMatchesWholeSegments(name: string, key: string)
    ensures name + "/" <= key <==> Segments(name) < Segments(key)
  {
    if name + "/" <= key {
      var rest := key[|name| + 1..];
      assert key == name + ['/'] + rest;
      SplitAt(name, '/', rest, IsSlash);
    }
    if Segments(name) < Segments(key) {
      var rest := Segments(key)[|Segments(name)|..];
      assert Segments(key) == Segments(name) + rest;
      JoinedAppend(Segments(name), rest, "/");
      JoinedSplit(name);
      JoinedSplit(key);
    }
  }

  lemma EmptyEnds(key: string)
    ensures var all := Segments(key);
            && (key == "" || key[0] == '/' ==> all[0] == "")
            && (key != "" && key[|key| - 1] == '/' ==> all[|all| - 1] == "")
  {
    if key != "" && key[|key| - 1] == '/' {
      var front := key[..|key| - 1];
      assert key == front + ['/'] + "";
      SplitAt(front, '/', "", IsSlash);
    }
  }

  /** The checks on the ends of a key follow from the checks on its segments. */
  lemma ValidKeyIff(key: string)
    ensures ValidKey(key) <==> |key| <= 255 && forall s | s in Segments(key) :: ValidSegment(s)
  {
    var all := Segments(key);
    EmptyEnds(key);
    assert all[0] in all && all[|all| - 1] in all;
  }

  lemma {:induction false} SegmentChars(text: string)
    ensures forall c :: c in text && c != '/' ==> exists s :: s in Segments(text) && c in s
    ensures forall s, c :: s in Segments(text) && c in s ==> c in text && c != '/'
  {
    if text != "" {
      var rest := Segments(text[1..]);
      SegmentChars(text[1..]);
      assert text == [text[0]] + text[1..];
      if text[0] == '/' {
        assert Segments(text) == [""] + rest;
      } else {
        var first := [text[0]] + rest[0];
        assert Segments(text) == [first] + rest[1..];
        assert rest == [rest[0]] + rest[1..];
        assert text[0] in first && forall c | c in rest[0] :: c in first;
      }
    }
  }

  /** The characters of a valid key: lower-case letters, digits, dots, underscores, dashes and
      slashes, in segments of 1 to 63 that start with a letter or digit. */
  lemma ValidKeyText(key: string)
    ensures ValidKey(key)
       <==> && |key| <= 255
            && (forall c :: c in key ==> 'a' <= c <= 'z' || '0' <= c <= '9' || c in "._-/")
            && forall s :: s in Segments(key) ==> 0 < |s| <= 63 && ('a' <= s[0] <= 'z' || '0' <= s[0] <= '9')
  {
    ValidKeyIff(key);
    SegmentChars(key);
    forall s | s in Segments(key) && s != "" && IsKeyStart(s[0]) ensures s != "." && s != ".." {
    }
  }

  /** A listing prefix is a valid key and a slash, 255 characters together. */
  lemma ValidPrefixIff(prefix: string)
    ensures ValidPrefix(prefix) <==> exists name :: prefix == name + "/" && ValidKey(name) && |name| < 255
  {
    if ValidPrefix(prefix) {
      var name := prefix[..|prefix| - 1];
      assert prefix == name + "/";
    }
    if name :| prefix == name + "/" && ValidKey(name) && |name| < 255 {
      assert prefix[..|prefix| - 1] == name;
    }
  }

  /** Every proper leading part of a valid key is a valid prefix, and lists the key. */
  lemma LeadingSegmentsListTheKey(key: string, n: nat)
    requires ValidKey(key) && 0 < n < |Segments(key)|
    ensures var prefix := Joined(Segments(key)[..n], "/") + "/"; ValidPrefix(prefix) && prefix <= key
  {
    var all := Segments(key);
    var name := Joined(all[..n], "/");
    JoinedSplit(key);
    JoinedAppend(all[..n], all[n..], "/");
    assert all[..n] + all[n..] == all;
    var rest := Joined(all[n..], "/");
    assert key == name + ['/'] + rest;
    SplitAt(name, '/', rest, IsSlash);
    assert (name + "/")[..|name|] == name;
    ValidKeyIff(name);
  }

  // ---- the answer to a listing ----

  /** A lease as the provider lists it. */
  datatype ListedLease = ListedLease(
    id: string, project: string, resource: string, device: string, holder: string, generation: nat, acquired: int, expires: int)

  /** Every field named, a positive generation, acquired before it expires. */
  predicate WellFormed(l: ListedLease) {
    && l.id != "" && l.project != "" && l.resource != "" && l.device != "" && l.holder != ""
    && l.generation > 0 && l.acquired < l.expires
  }

  /** What the client requires of a listing: well-formed leases of its own project, each
      lease and each resource once, every resource beneath the prefix. */
  ghost predicate Acceptable(leases: seq<ListedLease>, project: string, prefix: string) {
    && (forall l | l in leases :: WellFormed(l) && l.project == project && prefix <= l.resource)
    && (forall i, j | 0 <= i < j < |leases| :: leases[i].id != leases[j].id && leases[i].resource != leases[j].resource)
  }

  function Ids(leases: seq<ListedLease>): seq<string> { seq(|leases|, i requires 0 <= i < |leases| => leases[i].id) }

  function Resources(leases: seq<ListedLease>): seq<string> {
    seq(|leases|, i requires 0 <= i < |leases| => leases[i].resource)
  }

  /** What an accepted listing is: as many leases and as many resources as entries, each the
      project's own and complete, and each resource made of the prefix's segments and more. */
  lemma AcceptableIff(leases: seq<ListedLease>, project: string, name: string)
    ensures Acceptable(leases, project, name + "/")
       <==> && |Elements(Ids(leases))| == |leases| && |Elements(Resources(leases))| == |leases|
            && forall l :: l in leases ==>
                 && l.id != "" && l.project != "" && l.resource != "" && l.device != "" && l.holder != ""
                 && l.generation > 0 && l.acquired < l.expires
                 && l.project == project && Segments(name) < Segments(l.resource)
  {
    DistinctIff(Ids(leases));
    DistinctIff(Resources(leases));
    assert forall i | 0 <= i < |leases| :: Ids(leases)[i] == leases[i].id && Resources(leases)[i] == leases[i].resource;
    forall l | l in leases ensures name + "/" <= l.resource <==> Segments(name) < Segments(l.resource) {
      PrefixMatchesWholeSegments(name, l.resource);
    }
  }

  /** The loop over two growing sets that `list` runs, then the prefix check. */
  method CheckListing(leases: seq<ListedLease>, project: string, prefix: string) returns (ok: bool)
    ensures ok <==> Acceptable(leases, project, prefix)
  {
    var ids: set<string> := {};
    var resources: set<string> := {};
    for i := 0 to |leases|
      invariant ids == set k | 0 <= k < i :: leases[k].id
      invariant resources == set k | 0 <= k < i :: leases[k].resource
      invariant forall k | 0 <= k < i :: WellFormed(leases[k]) && leases[k].project == project
      invariant forall j, k | 0 <= j < k < i :: leases[j].id != leases[k].id && leases[j].resource != leases[k].resource
    {
      var lease := leases[i];
      if lease.id == "" || lease.project == "" || lease.resource == "" || lease.device == "" || lease.holder == ""
         || lease.generation == 0 || lease.acquired >= lease.expires {
        return false;
      }
      if lease.project != project || lease.id in ids || lease.resource in resources {
        return false;
      }
      ids := ids + {lease.id};
      resources := resources + {lease.resource};
    }
    ok := forall l | l in leases :: prefix <= l.resource;
  }
}
