/** Names of weight-cache directories: how a repository id is spelled as one directory
    name, and read back. */
module CacheDir {
  import opened Options
  import opened Bytes

  const PREFIX := "models--"
  const DASHES := "--"
  const SLASH := "/"

  /** Every non-overlapping occurrence, from the left, replaced. */
  function ReplaceAll(s: string, what: string, with: string): string
    requires what != ""
    decreases |s|
  {
    if s == "" then ""
    else if OccursAt(s, 0, what) then with + ReplaceAll(s[|what|..], what, with)
    else [s[0]] + ReplaceAll(s[1..], what, with)
  }

  function CacheDirForRepo(repo: string): string {
    PREFIX + ReplaceAll(repo, SLASH, DASHES)
  }

  function RepoFromRest(rest: string): string {
    var cut := Find(rest, DASHES, 0);
    if cut.None? then rest
    else rest[..cut.value] + SLASH + ReplaceAll(rest[cut.value + 2..], DASHES, SLASH)
  }

  /** The empty text for a directory that is not a model's. */
  function RepoFromCacheDir(name: string): string {
    if OccursAt(name, 0, PREFIX) then RepoFromRest(name[|PREFIX|..]) else ""
  }

  predicate RepoChar(c: char) {
    'a' <= c <= 'z' || 'A' <= c <= 'Z' || '0' <= c <= '9' || c == '-' || c == '_' || c == '.'
  }

  predicate ValidPart(part: string) {
    part != "" && part[0] != '.' && forall i :: 0 <= i < |part| ==> RepoChar(part[i])
  }

  function Join(owner: string, name: string): string { owner + SLASH + name }

  /** The scan of the source: cut at the first slash, then check each part. */
  method CheckRepo(repo: string) returns (ok: bool)
    ensures ok <==> exists owner, name :: repo == Join(owner, name) && ValidPart(owner) && ValidPart(name)
  {
    var i := 0;
    while i < |repo| && repo[i] != '/'
      invariant 0 <= i <= |repo|
      invariant forall j :: 0 <= j < i ==> repo[j] != '/'
    {
      i := i + 1;
    }
    if i == |repo| {
      forall owner, name ensures repo != Join(owner, name) {
        assert Join(owner, name)[|owner|] == '/';
      }
      return false;
    }
    var owner, name := repo[..i], repo[i + 1..];
    assert repo == Join(owner, name);
    var first := CheckPart(owner);
    var second := CheckPart(name);
    ok := first && second;
    forall o, n | repo == Join(o, n) && ValidPart(o) && ValidPart(n) ensures o == owner && n == name {
      SplitIsUnique(o, n, owner, name);
    }
  }

  lemma SplitIsUnique(a: string, b: string, owner: string, name: string)
    requires Join(a, b) == Join(owner, name) && '/' !in owner && ValidPart(a)
    ensures a == owner && b == name
  {
    var s := Join(a, b);
    assert s[|a|] == '/' && s[|owner|] == '/';
    assert forall i :: 0 <= i < |a| ==> s[i] == a[i];
    assert forall i :: 0 <= i < |owner| ==> s[i] == owner[i];
    assert |a| == |owner|;
    assert a == s[..|a|] && owner == s[..|owner|];
    assert b == s[|a| + 1..] && name == s[|owner| + 1..];
  }

  method CheckPart(part: string) returns (ok: bool)
    ensures ok <==> ValidPart(part)
  {
    if part == "" || part[0] == '.' {
      return false;
    }
    for i := 0 to |part|
      invariant forall j :: 0 <= j < i ==> RepoChar(part[j])
    {
      if !RepoChar(part[i]) {
        return false;
      }
    }
    return true;
  }

  // ----- Reading a name back -----

  predicate DashesAt(s: string, i: int) {
    0 <= i < |s| - 1 && s[i] == '-' && s[i + 1] == '-'
  }

  ghost predicate HasDashes(s: string) {
    exists i :: DashesAt(s, i)
  }

  /** The ids whose directory name can be read back. */
  ghost predicate Readable(owner: string, name: string) {
    !HasDashes(owner) && !(owner != "" && owner[|owner| - 1] == '-') && !HasDashes(name)
  }

  lemma OccursDashes(s: string, i: nat)
    ensures OccursAt(s, i, DASHES) <==> DashesAt(s, i)
  {
    OccursBytes(s, i, DASHES);
  }

  lemma OccursSlash(s: string, i: nat)
    ensures OccursAt(s, i, SLASH) <==> i < |s| && s[i] == '/'
  {
    OccursBytes(s, i, SLASH);
  }

  lemma {:induction false} NoSlashNothingReplaced(s: string)
    requires '/' !in s
    ensures ReplaceAll(s, SLASH, DASHES) == s
  {
    if s != "" {
      OccursSlash(s, 0);
      NoSlashNothingReplaced(s[1..]);
    }
  }

  lemma {:induction false} EncodedRest(owner: string, name: string)
    requires '/' !in owner && '/' !in name
    ensures ReplaceAll(Join(owner, name), SLASH, DASHES) == owner + DASHES + name
  {
    var s := Join(owner, name);
    OccursSlash(s, 0);
    if owner == "" {
      assert s[1..] == name;
      NoSlashNothingReplaced(name);
    } else {
      assert s[1..] == Join(owner[1..], name);
      EncodedRest(owner[1..], name);
    }
  }

  lemma {:induction false} NoDashesNothingReplaced(s: string)
    requires !HasDashes(s)
    ensures ReplaceAll(s, DASHES, SLASH) == s
  {
    if s != "" {
      OccursDashes(s, 0);
      forall i ensures !DashesAt(s[1..], i) {
        assert !DashesAt(s, i + 1);
      }
      NoDashesNothingReplaced(s[1..]);
    }
  }

  lemma {:induction false} DashesBecomeSlash(s: string)
    requires HasDashes(s)
    ensures '/' in ReplaceAll(s, DASHES, SLASH)
  {
    OccursDashes(s, 0);
    if DashesAt(s, 0) {
      assert ReplaceAll(s, DASHES, SLASH)[0] == '/';
    } else {
      var i :| DashesAt(s, i);
      assert DashesAt(s[1..], i - 1);
      DashesBecomeSlash(s[1..]);
      assert ReplaceAll(s, DASHES, SLASH) == [s[0]] + ReplaceAll(s[1..], DASHES, SLASH);
    }
  }

  /** Where the first pair of dashes of an encoded id falls. */
  lemma FirstDashes(owner: string, name: string)
    ensures var s := owner + DASHES + name;
            var cut := Find(s, DASHES, 0);
            && cut.Some? && cut.value <= |owner| && cut.value + 2 <= |s|
            && (cut.value == |owner| <==> !HasDashes(owner) && !(owner != "" && owner[|owner| - 1] == '-'))
  {
    var s := owner + DASHES + name;
    OccursDashes(s, |owner|);
    assert DashesAt(s, |owner|);
    var cut := Find(s, DASHES, 0);
    OccursDashes(s, cut.value);
    if cut.value < |owner| {
      if cut.value == |owner| - 1 {
        assert owner[|owner| - 1] == s[cut.value] == '-';
      } else {
        assert DashesAt(owner, cut.value);
      }
    } else {
      if i :| DashesAt(owner, i) {
        OccursDashes(s, i);
      }
      if owner != "" && owner[|owner| - 1] == '-' {
        OccursDashes(s, |owner| - 1);
      }
    }
  }

  lemma NoSlashInValid(part: string)
    requires ValidPart(part)
    ensures '/' !in part
  {
  }

  /** What a valid id's directory name is read back as. */
  lemma ReadBack(owner: string, name: string)
    requires '/' !in owner && '/' !in name
    ensures RepoFromCacheDir(CacheDirForRepo(Join(owner, name))) == RepoFromRest(owner + DASHES + name)
  {
    EncodedRest(owner, name);
    var dir := CacheDirForRepo(Join(owner, name));
    assert dir == PREFIX + (owner + DASHES + name);
    assert dir[0..|PREFIX|] == PREFIX;
    assert dir[|PREFIX|..] == owner + DASHES + name;
  }

  /** The round trip gives a valid id back exactly when its owner has no double dash
      and does not end in a dash, and its name has no double dash. */
  lemma RoundTripIff(owner: string, name: string)
    requires ValidPart(owner) && ValidPart(name)
    ensures RepoFromCacheDir(CacheDirForRepo(Join(owner, name))) == Join(owner, name) <==> Readable(owner, name)
  {
    NoSlashInValid(owner);
    NoSlashInValid(name);
    ReadBack(owner, name);
    FirstDashes(owner, name);
    var s, whole := owner + DASHES + name, Join(owner, name);
    var cut := Find(s, DASHES, 0).value;
    var r := RepoFromRest(s);
    assert r[cut] == '/';
    if cut < |owner| {
      assert whole[cut] == owner[cut];
    } else {
      assert s[..cut] == owner && s[cut + 2..] == name;
      if HasDashes(name) {
        DashesBecomeSlash(name);
        assert r[|owner| + 1..] == ReplaceAll(name, DASHES, SLASH);
        assert whole[|owner| + 1..] == name;
      } else {
        NoDashesNothingReplaced(name);
      }
    }
  }

  /** Hence no two readable ids share a directory. */
  lemma ReadableIdsDoNotCollide(owner: string, name: string, owner': string, name': string)
    requires ValidPart(owner) && ValidPart(name) && Readable(owner, name)
    requires ValidPart(owner') && ValidPart(name') && Readable(owner', name')
    requires CacheDirForRepo(Join(owner, name)) == CacheDirForRepo(Join(owner', name'))
    ensures owner == owner' && name == name'
  {
    RoundTripIff(owner, name);
    RoundTripIff(owner', name');
    NoSlashInValid(owner');
    SplitIsUnique(owner, name, owner', name');
  }

  /** Two valid ids that do: `a-/b` and `a/-b`. */
  lemma UnreadableIdsCollide()
    ensures ValidPart("a-") && ValidPart("b") && ValidPart("a") && ValidPart("-b")
    ensures CacheDirForRepo(Join("a-", "b")) == CacheDirForRepo(Join("a", "-b"))
    ensures Join("a-", "b") != Join("a", "-b")
  {
    EncodedRest("a-", "b");
    EncodedRest("a", "-b");
    assert Join("a-", "b")[1] == '-' && Join("a", "-b")[1] == '/';
  }

  // ----- Ids with a directory of their own -----

  /** The separator could also be read at a later dash of the owner's, or one of its last
      dash and the separator's first. */
  ghost predicate OwnerMisleads(owner: string) {
    exists i :: OwnerSplits(owner, i)
  }

  predicate OwnerSplits(owner: string, i: int) {
    && 0 < i < |owner| && owner[i] == '-'
    && (i == |owner| - 1 || (owner[i + 1] == '-' && (i + 2 == |owner| || owner[i + 2] != '.')))
  }

  /** Or at a dash of the name's; at -1 it is the separator's second dash and the name's first. */
  ghost predicate NameMisleads(name: string) {
    exists j :: NameSplits(name, j)
  }

  predicate NameSplits(name: string, j: int) {
    && -1 <= j && j + 2 < |name|
    && (j == -1 || name[j] == '-') && name[j + 1] == '-' && name[j + 2] != '.'
  }

  /** A valid id other than this one with the same directory. */
  ghost predicate Shares(owner: string, name: string, owner': string, name': string) {
    && ValidPart(owner') && ValidPart(name') && (owner' != owner || name' != name)
    && CacheDirForRepo(Join(owner', name')) == CacheDirForRepo(Join(owner, name))
  }

  lemma SameDirIff(owner: string, name: string, owner': string, name': string)
    requires ValidPart(owner) && ValidPart(name) && ValidPart(owner') && ValidPart(name')
    ensures CacheDirForRepo(Join(owner', name')) == CacheDirForRepo(Join(owner, name))
       <==> owner' + DASHES + name' == owner + DASHES + name
  {
    EncodedRest(owner, name);
    EncodedRest(owner', name');
    var x, y := owner' + DASHES + name', owner + DASHES + name;
    assert (PREFIX + x)[|PREFIX|..] == x && (PREFIX + y)[|PREFIX|..] == y;
  }

  /** Where a text can be cut into two valid parts around a pair of dashes. */
  predicate CutsAt(s: string, i: int) {
    0 < i && i + 2 < |s| && s[i] == '-' && s[i + 1] == '-' && s[i + 2] != '.'
  }

  lemma CutsMean(owner: string, name: string, s: string, i: int)
    requires ValidPart(owner) && ValidPart(name) && s == owner + DASHES + name && i != |owner|
    ensures CutsAt(s, i) <==> OwnerSplits(owner, i) || NameSplits(name, i - |owner| - 2)
  {
    assert forall k | 0 <= k < |owner| :: s[k] == owner[k];
    assert s[|owner|] == '-' && s[|owner| + 1] == '-';
    assert forall k | 0 <= k < |name| :: s[|owner| + 2 + k] == name[k];
  }

  lemma CutIsShared(owner: string, name: string, s: string, i: int)
    requires ValidPart(owner) && ValidPart(name) && s == owner + DASHES + name
    requires CutsAt(s, i) && i != |owner|
    ensures Shares(owner, name, s[..i], s[i + 2..])
  {
    var o, n := s[..i], s[i + 2..];
    assert s == o + DASHES + n;
    assert o[0] == owner[0];
    assert forall k | 0 <= k < |s| :: RepoChar(s[k]);
    assert ValidPart(o) && ValidPart(n);
    SameDirIff(owner, name, o, n);
  }

  lemma SameCut(owner: string, name: string, owner': string, name': string)
    requires owner' + DASHES + name' == owner + DASHES + name && |owner'| == |owner|
    ensures owner' == owner && name' == name
  {
    var s, i := owner + DASHES + name, |owner|;
    assert owner' == s[..i] == owner;
    assert name' == s[i + 2..] == name;
  }

  lemma SharedIsCut(owner: string, name: string, owner': string, name': string)
    requires ValidPart(owner) && ValidPart(name) && Shares(owner, name, owner', name')
    ensures |owner'| != |owner| && CutsAt(owner + DASHES + name, |owner'|)
  {
    SameDirIff(owner, name, owner', name');
    var s, i := owner + DASHES + name, |owner'|;
    assert s == owner' + DASHES + name';
    assert s[i] == '-' && s[i + 1] == '-' && s[i + 2] == name'[0];
    if i == |owner| {
      SameCut(owner, name, owner', name');
    }
  }

  /** A valid id shares its directory with another valid id exactly when its owner or its
      name holds a second place to cut. */
  lemma SharedIff(owner: string, name: string)
    requires ValidPart(owner) && ValidPart(name)
    ensures (exists owner', name' :: Shares(owner, name, owner', name'))
       <==> OwnerMisleads(owner) || NameMisleads(name)
  {
    var s := owner + DASHES + name;
    if owner', name' :| Shares(owner, name, owner', name') {
      SharedIsCut(owner, name, owner', name');
      CutsMean(owner, name, s, |owner'|);
    }
    if i :| OwnerSplits(owner, i) {
      CutsMean(owner, name, s, i);
      CutIsShared(owner, name, s, i);
    }
    if j :| NameSplits(name, j) {
      CutsMean(owner, name, s, j + |owner| + 2);
      CutIsShared(owner, name, s, j + |owner| + 2);
    }
  }
}
