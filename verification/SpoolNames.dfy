/** The names of spool files: one base name, and a suffix for each state of the file. */
module SpoolNames {
  import opened Wrappers

  const JSONL := ".jsonl"
  const PROCESSING := ".processing"
  const FAILED := ".failed"

  datatype Class = Pending | Tmp | Processing | Done | Failed

  function Suffix(c: Class): string {
    match c
    case Pending => ""
    case Tmp => ".tmp"
    case Processing => PROCESSING
    case Done => ".done"
    case Failed => FAILED
  }

  predicate EndsWith(s: string, suffix: string) {
    |suffix| <= |s| && s[|s| - |suffix|..] == suffix
  }

  /** `str::strip_suffix`. */
  function StripSuffix(s: string, suffix: string): Option<string> {
    if EndsWith(s, suffix) then Some(s[..|s| - |suffix|]) else None
  }

  predicate IsBase(name: string) {
    EndsWith(name, JSONL)
  }

  /** `append_suffix`, on file names. */
  function AppendSuffix(name: string, suffix: string): string {
    name + suffix
  }

  /** `state_path`: from the processing name to the name of another state. */
  function StatePath(processing: string, suffix: string): Option<string> {
    match StripSuffix(processing, PROCESSING)
    case None => None
    case Some(base) => Some(base + suffix)
  }

  /** The class `spool_counts` puts a name in, tested in its order. */
  function ClassOf(name: string): Option<Class> {
    if EndsWith(name, ".jsonl") then Some(Pending)
    else if EndsWith(name, ".jsonl.tmp") then Some(Tmp)
    else if EndsWith(name, ".jsonl.processing") then Some(Processing)
    else if EndsWith(name, ".jsonl.done") then Some(Done)
    else if EndsWith(name, ".jsonl.failed") then Some(Failed)
    else None
  }

  function At(base: string, c: Class): string {
    base + Suffix(c)
  }

  /** Moving on from the processing name is moving on from the base name. */
  lemma {:induction false} StatePathOfProcessing(base: string, suffix: string)
    ensures StatePath(AppendSuffix(base, PROCESSING), suffix) == Some(AppendSuffix(base, suffix))
  {
  }

  /** Retrying a failed file finds its base name again. */
  lemma {:induction false} RetryFindsBase(base: string)
    ensures StripSuffix(At(base, Failed), FAILED) == Some(base)
  {
  }

  lemma {:induction false} LastChars(base: string, c: Class)
    requires IsBase(base)
    ensures |At(base, c)| > 0
    ensures At(base, c)[|At(base, c)| - 1] ==
      match c case Pending => 'l' case Tmp => 'p' case Processing => 'g' case Done => 'e' case Failed => 'd'
  {
  }

  /** A name tells its base and its class: no two files of the spool can share one. */
  lemma {:induction false} NamesAreDistinct(a: string, c: Class, b: string, d: Class)
    requires IsBase(a) && IsBase(b)
    ensures At(a, c) == At(b, d) <==> a == b && c == d
  {
    if At(a, c) == At(b, d) {
      LastChars(a, c);
      LastChars(b, d);
      assert c == d;
      assert a == At(a, c)[..|At(a, c)| - |Suffix(c)|] == At(b, d)[..|At(b, d)| - |Suffix(d)|] == b;
    }
  }

  lemma {:induction false} EndsWithAppended(base: string, suffix: string)
    requires IsBase(base)
    ensures EndsWith(base + suffix, JSONL + suffix)
  {
  }

  /** `spool_counts` counts every file of the spool in the class it is in. */
  lemma {:induction false} CountedInItsClass(base: string, c: Class)
    requires IsBase(base)
    ensures ClassOf(At(base, c)) == Some(c)
  {
    var name := At(base, c);
    LastChars(base, c);
    EndsWithAppended(base, Suffix(c));
    assert EndsWith(name, ".jsonl" + Suffix(c));
    assert ".jsonl" + "" == ".jsonl" && ".jsonl" + ".tmp" == ".jsonl.tmp" && ".jsonl" + ".processing" == ".jsonl.processing";
    assert ".jsonl" + ".done" == ".jsonl.done" && ".jsonl" + ".failed" == ".jsonl.failed";
    OtherEnding(name, ".jsonl", 'l');
    OtherEnding(name, ".jsonl.tmp", 'p');
    OtherEnding(name, ".jsonl.processing", 'g');
    OtherEnding(name, ".jsonl.done", 'e');
    OtherEnding(name, ".jsonl.failed", 'd');
  }

  lemma {:induction false} OtherEnding(name: string, ending: string, last: char)
    requires ending != [] && ending[|ending| - 1] == last
    ensures EndsWith(name, ending) ==> name[|name| - 1] == last
  {
  }
}
