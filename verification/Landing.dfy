/** Publishing an assembled upload under a name of its own, next to other writers. */
module Landing {
  import opened Chunks

  type Files = map<string, Bytes>

  /** The names tried, in order: the one asked for, the one that names the content, and that one
      numbered. */
  datatype Names = Names(asked: string, numbered: nat -> string)

  function Name(names: Names, k: nat): string {
    if k == 0 then names.asked else names.numbered(k - 1)
  }

  const TRIES: nat := 1000
  const ATTEMPTS: nat := 16

  /** Which of the first names is free or already holds these bytes; Tries + 1 if none is. */
  function Choice(files: Files, names: Names, bytes: Bytes, k: nat): (r: nat)
    requires k <= TRIES + 1
    ensures k <= r <= TRIES + 1
    decreases TRIES + 1 - k
  {
    if k == TRIES + 1 || Name(names, k) !in files || files[Name(names, k)] == bytes then k
    else Choice(files, names, bytes, k + 1)
  }

  /** Every name before the choice is taken by other bytes. */
  lemma {:induction false} ChoiceIsFirst(files: Files, names: Names, bytes: Bytes, k: nat)
    requires k <= TRIES + 1
    ensures var c := Choice(files, names, bytes, k);
            && (forall j :: k <= j < c ==> Name(names, j) in files && files[Name(names, j)] != bytes)
            && (c <= TRIES ==> Name(names, c) !in files || files[Name(names, c)] == bytes)
    decreases TRIES + 1 - k
  {
    if !(k == TRIES + 1 || Name(names, k) !in files || files[Name(names, k)] == bytes) {
      ChoiceIsFirst(files, names, bytes, k + 1);
    }
  }

  /** Files are only ever added. */
  predicate Keeps(before: Files, after: Files) {
    forall f :: f in before ==> f in after && after[f] == before[f]
  }

  /** A name to publish under: free, or holding these bytes already. */
  predicate Open(files: Files, names: Names, bytes: Bytes, k: nat) {
    Name(names, k) !in files || files[Name(names, k)] == bytes
  }

  /** The name chosen of the 1001 that are tried: the first open one. */
  ghost predicate FirstOpen(files: Files, names: Names, bytes: Bytes, k: nat) {
    k <= 1000 && Open(files, names, bytes, k) && forall j :: 0 <= j < k ==> !Open(files, names, bytes, j)
  }

  ghost predicate NoneOpen(files: Files, names: Names, bytes: Bytes) {
    forall k :: 0 <= k <= 1000 ==> !Open(files, names, bytes, k)
  }

  lemma ChoiceTells(files: Files, names: Names, bytes: Bytes)
    ensures var c := Choice(files, names, bytes, 0);
            if c <= TRIES then FirstOpen(files, names, bytes, c) else NoneOpen(files, names, bytes)
  {
    ChoiceIsFirst(files, names, bytes, 0);
  }

  /** The directory at the `n`-th look, when nothing of ours was linked before. */
  function Look(files: Files, rivals: seq<Files>, n: nat): Files
    requires n <= |rivals|
  {
    if n == 0 then files else rivals[n - 1] + Look(files, rivals, n - 1)
  }

  /** The name chosen at the `n`-th look was free then, and is taken before the link. */
  ghost predicate Beaten(files: Files, names: Names, bytes: Bytes, rivals: seq<Files>, n: nat)
    requires n < |rivals|
  {
    var look := Look(files, rivals, n);
    exists k :: 0 <= k <= 1000 && FirstOpen(look, names, bytes, k) && Name(names, k) !in look && Name(names, k) in rivals[n]
  }

  /** The attempts before the `n`-th were all beaten. */
  ghost predicate Reached(files: Files, names: Names, bytes: Bytes, rivals: seq<Files>, n: nat)
    requires n <= |rivals|
  {
    forall m :: 0 <= m < n ==> Beaten(files, names, bytes, rivals, m)
  }

  /** How publishing ends at the `n`-th attempt, if it does not go on. */
  ghost predicate EndsAt(files: Files, names: Names, bytes: Bytes, rivals: seq<Files>, n: nat, outcome: Outcome, after: Files)
    requires n < |rivals|
  {
    var look := Look(files, rivals, n);
    Reached(files, names, bytes, rivals, n)
    && match outcome
       case NoName => NoneOpen(look, names, bytes) && after == look
       case Published(name, reused) =>
         exists k :: 0 <= k <= 1000 && FirstOpen(look, names, bytes, k) && name == Name(names, k)
           && if reused then name in look && after == look
              else name !in look && name !in rivals[n] && after == (rivals[n] + look)[name := bytes]
       case Contended => false
  }

  datatype Outcome = Published(name: string, reused: bool) | NoName | Contended

  lemma NoneBefore(files: Files, names: Names, bytes: Bytes, rivals: seq<Files>)
    ensures Look(files, rivals, 0) == files && Reached(files, names, bytes, rivals, 0)
  {
  }

  /** An attempt that is not beaten ends it. */
  lemma Ends(files: Files, names: Names, bytes: Bytes, rivals: seq<Files>, n: nat, outcome: Outcome, after: Files, choice: nat)
    requires n < |rivals| && Reached(files, names, bytes, rivals, n)
    requires var look := Look(files, rivals, n);
             match outcome
             case NoName => NoneOpen(look, names, bytes) && after == look
             case Contended => false
             case Published(name, reused) =>
               && FirstOpen(look, names, bytes, choice) && name == Name(names, choice)
               && if reused then name in look && after == look
                  else name !in look && name !in rivals[n] && after == (rivals[n] + look)[name := bytes]
    ensures EndsAt(files, names, bytes, rivals, n, outcome, after)
    ensures !Beaten(files, names, bytes, rivals, n) && forall m :: n < m <= |rivals| ==> !Reached(files, names, bytes, rivals, m)
  {
  }

  lemma GoesOn(files: Files, names: Names, bytes: Bytes, rivals: seq<Files>, n: nat, choice: nat)
    requires n < |rivals| && Reached(files, names, bytes, rivals, n)
    requires var look := Look(files, rivals, n);
             FirstOpen(look, names, bytes, choice) && Name(names, choice) !in look && Name(names, choice) in rivals[n]
    ensures Reached(files, names, bytes, rivals, n + 1) && Look(files, rivals, n + 1) == rivals[n] + Look(files, rivals, n)
  {
  }

  /** With no rivals the first attempt decides: the bytes are published under the first open name, if there
      is one. */
  lemma PublishedAlone(files: Files, names: Names, bytes: Bytes, rivals: seq<Files>, n: nat, outcome: Outcome, after: Files)
    requires |rivals| == 16 && forall m :: 0 <= m < 16 ==> rivals[m] == map[]
    ensures !Reached(files, names, bytes, rivals, 16)
    ensures n < 16 && EndsAt(files, names, bytes, rivals, n, outcome, after) ==>
              if NoneOpen(files, names, bytes) then outcome.NoName? && after == files
              else && outcome.Published?
                   && exists k :: 0 <= k <= 1000 && FirstOpen(files, names, bytes, k)
                        && outcome.name == Name(names, k) && after == files[outcome.name := bytes]
  {
    assert !Beaten(files, names, bytes, rivals, 0);
  }

  class Directory {
    const hash: Bytes -> string
    var files: Files

    constructor (hash: Bytes -> string, files: Files)
      ensures this.hash == hash && this.files == files
    {
      this.hash, this.files := hash, files;
    }

    /** Same length and same hash. */
    predicate Matches(name: string, bytes: Bytes)
      reads this
    {
      name in files && |files[name]| == |bytes| && hash(files[name]) == hash(bytes)
    }

    ghost predicate Injective() {
      forall a: Bytes, b: Bytes :: hash(a) == hash(b) ==> a == b
    }

    /** The name asked for if it is free or holds these bytes, else the first such content name. */
    method TargetName(names: Names, bytes: Bytes) returns (choice: nat, reuse: bool)
      requires Injective()
      ensures choice == Choice(files, names, bytes, 0)
      ensures reuse <==> choice <= TRIES && Name(names, choice) in files
    {
      if Matches(names.asked, bytes) {
        return 0, true;
      }
      if names.asked !in files {
        return 0, false;
      }
      for suffix := 0 to TRIES
        invariant Choice(files, names, bytes, 0) == Choice(files, names, bytes, suffix + 1)
      {
        var candidate := names.numbered(suffix);
        if Matches(candidate, bytes) {
          return suffix + 1, true;
        }
        if candidate !in files {
          return suffix + 1, false;
        }
      }
      return TRIES + 1, false;
    }

    /** A hard link: it never replaces a file. */
    method Link(name: string, bytes: Bytes) returns (ok: bool)
      modifies this
      ensures ok <==> name !in old(files)
      ensures files == if ok then old(files)[name := bytes] else old(files)
    {
      ok := name !in files;
      if ok {
        files := files[name := bytes];
      }
    }

    /** Other writers add files of their own. */
    method Interfere(added: Files)
      modifies this
      ensures files == added + old(files)
    {
      files := added + files;
    }

    /** Publishes `bytes`, while `rivals[n]` appears between the n-th look at the directory and the
        n-th link. No file that was there changes; on success the bytes are there, under a name whose
        predecessors all hold something else; and at most that one file is ours. */
    method Publish(names: Names, bytes: Bytes, rivals: seq<Files>) returns (outcome: Outcome, ghost others: Files)
      requires Injective() && |rivals| == ATTEMPTS
      modifies this
      ensures Keeps(old(files), files) && Keeps(old(files), others)
      ensures others.Keys <= files.Keys <= others.Keys + if outcome.Published? then {outcome.name} else {}
      ensures !outcome.Published? ==> files == others
      ensures outcome.Published? ==>
                && outcome.name in files && files[outcome.name] == bytes
                && files == others[outcome.name := bytes]
                && (outcome.reused ==> files == others)
                && Standing(files, names, bytes)
      ensures outcome.Contended? <==> Reached(old(files), names, bytes, rivals, 16)
      ensures outcome.Contended? ==> files == Look(old(files), rivals, 16)
      ensures !outcome.Contended? ==> exists n :: 0 <= n < 16 && EndsAt(old(files), names, bytes, rivals, n, outcome, files)
    {
      hide Choice, FirstOpen, NoneOpen, EndsAt, Beaten, Reached, Standing;
      NoneBefore(files, names, bytes, rivals);
      for attempt := 0 to ATTEMPTS
        invariant Keeps(old(files), files)
        invariant files == Look(old(files), rivals, attempt) && Reached(old(files), names, bytes, rivals, attempt)
      {
        var choice, reuse := TargetName(names, bytes);
        ghost var look := files;
        ChoiceTells(files, names, bytes);
        others := files;
        if choice == TRIES + 1 {
          Ends(old(files), names, bytes, rivals, attempt, NoName, files, choice);
          return NoName, others;
        }
        var name := Name(names, choice);
        if reuse {
          Ends(old(files), names, bytes, rivals, attempt, Published(name, true), files, choice);
          Stands(look, files, names, bytes, choice);
          return Published(name, true), others;
        }
        Interfere(rivals[attempt]);
        others := files;
        var linked := Link(name, bytes);
        if linked {
          Ends(old(files), names, bytes, rivals, attempt, Published(name, false), files, choice);
          Stands(look, files, names, bytes, choice);
          return Published(name, false), others;
        }
        GoesOn(old(files), names, bytes, rivals, attempt, choice);
      }
      return Contended, files;
    }
  }

  /** A name chosen at a look holds the bytes when nothing but more files has come since. */
  lemma Stands(look: Files, files: Files, names: Names, bytes: Bytes, c: nat)
    requires c <= TRIES && FirstOpen(look, names, bytes, c) && Keeps(look, files)
    requires Name(names, c) in files && (Name(names, c) in look || files[Name(names, c)] == bytes)
    ensures Standing(files, names, bytes) && files[Name(names, c)] == bytes
  {
    forall j | 0 <= j < c
      ensures Name(names, j) in files && files[Name(names, j)] != bytes
    {
      assert !Open(look, names, bytes, j);
    }
    assert StandsAt(files, names, bytes, c);
  }

  /** These bytes stand under one of the names, and all names before it hold something else. */
  ghost predicate Standing(files: Files, names: Names, bytes: Bytes) {
    exists c :: 0 <= c <= TRIES && StandsAt(files, names, bytes, c)
  }

  predicate StandsAt(files: Files, names: Names, bytes: Bytes, c: nat) {
    && Name(names, c) in files && files[Name(names, c)] == bytes
    && forall j :: 0 <= j < c ==> Name(names, j) in files && files[Name(names, j)] != bytes
  }

  lemma {:induction false} ChoiceReaches(files: Files, names: Names, bytes: Bytes, k: nat, c: nat)
    requires k <= c <= TRIES && StandsAt(files, names, bytes, c)
    ensures Choice(files, names, bytes, k) == c
    decreases c - k
  {
    if k < c {
      ChoiceReaches(files, names, bytes, k + 1, c);
    }
  }

  /** Completing an upload again, however many files have been added since, finds the file it made:
      nothing is added. */
  lemma PublishedOnce(before: Files, after: Files, names: Names, bytes: Bytes)
    requires Standing(before, names, bytes) && Keeps(before, after)
    ensures var c := Choice(after, names, bytes, 0);
            c <= TRIES && Name(names, c) in before && before[Name(names, c)] == bytes && Name(names, c) in after
  {
    var c :| 0 <= c <= TRIES && StandsAt(before, names, bytes, c);
    ChoiceReaches(after, names, bytes, 0, c);
  }
}
