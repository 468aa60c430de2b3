/** What one dependency download proves about the modules it was asked for
    (download_results). */
module RecoveryProtocol {
  import opened Wrappers
  import opened RecoveryClassifier

  type Bytes = string
  type Modules = map<string, string>
  type Failures = map<string, Failure>

  // ------------------------------------------------------- download records

  datatype ErrorField = NoError | Text(text: string) | NotText

  /** One decoded JSON record of `go mod download -json`. */
  datatype Record = NotObject | Record(path: string, version: string, error: ErrorField, sum: string)

  /** Surroundings of the protocol: JSON decoding, hashing and the pattern that
      marks alarming diagnostics are functions the model does not interpret. */
  datatype Tools = Tools(
    decode: Bytes -> Option<seq<Record>>,
    digest: Bytes -> string,
    alarming: Bytes -> bool,
    proxy: string)

  datatype Output = Output(code: int, stdout: Bytes, stderr: Bytes)

  /** What one record proves: nothing acceptable, a download with the locked
      checksum, or a transport failure, of a requested locked module. */
  datatype Verdict = Rejected | Downloaded(key: string, sum: string) | Lost(key: string, failure: Failure)

  function Judge(r: Record, requested: seq<string>, modules: Modules, proxy: string): (v: Verdict)
    ensures !v.Rejected? ==> r.Record? && v.key == r.path + "@" + r.version && v.key in requested && v.key in modules
    ensures v.Downloaded? ==> r.error.NoError? && v.sum == r.sum == modules[v.key]
    ensures v.Lost? ==> r.error.Text? && '@' in v.key && Classify(r.error.text, v.key, proxy) == Some(v.failure)
  {
    if r.NotObject? then Rejected
    else
      var key := r.path + "@" + r.version;
      assert key[|r.path|] == '@';
      if key !in requested || key !in modules then Rejected
      else match r.error
        case NoError => if r.sum == modules[key] then Downloaded(key, r.sum) else Rejected
        case Text(text) =>
          var cause := Classify(text, key, proxy);
          if cause.Some? then Lost(key, cause.value) else Rejected
        case NotText => Rejected
  }

  function Verdicts(records: seq<Record>, requested: seq<string>, modules: Modules, proxy: string): (r: seq<Verdict>)
    ensures |r| == |records|
    ensures forall i :: 0 <= i < |r| ==> r[i] == Judge(records[i], requested, modules, proxy)
  {
    seq(|records|, i requires 0 <= i < |records| => Judge(records[i], requested, modules, proxy))
  }

  /** Nothing rejected, and no module reported on twice. */
  ghost predicate Clean(verdicts: seq<Verdict>) {
    && (forall i :: 0 <= i < |verdicts| ==> !verdicts[i].Rejected?)
    && (forall i, j :: 0 <= i < j < |verdicts| ==> verdicts[i].key != verdicts[j].key)
  }

  ghost predicate Reports(failed: Failures, verdicts: seq<Verdict>) {
    && (forall v :: v in verdicts && v.Lost? ==> v.key in failed && failed[v.key] == v.failure)
    && (forall k :: k in failed ==> Lost(k, failed[k]) in verdicts)
  }

  ghost predicate Covers(verdicts: seq<Verdict>, requested: seq<string>)
    requires Clean(verdicts)
  {
    forall k :: k in requested ==> exists i :: 0 <= i < |verdicts| && verdicts[i].key == k
  }

  /** The verdicts settle an attempt: they cover exactly the requested modules
      and the exit code agrees with the failures among them. */
  ghost predicate Settles(verdicts: seq<Verdict>, code: int, failed: Failures, requested: seq<string>) {
    verdicts != [] && Clean(verdicts) && Reports(failed, verdicts) && Covers(verdicts, requested) &&
    (code == 0 <==> failed == map[])
  }

  function OutputVerdicts(o: Output, requested: seq<string>, modules: Modules, tools: Tools): Option<seq<Verdict>> {
    var records := tools.decode(o.stdout);
    if records.None? then None else Some(Verdicts(records.value, requested, modules, tools.proxy))
  }

  /** A download output is conclusive: it decodes, settles the attempt, and
      nothing in its diagnostics is alarming. */
  ghost predicate Conclusive(o: Output, failed: Failures, requested: seq<string>, modules: Modules, tools: Tools) {
    var verdicts := OutputVerdicts(o, requested, modules, tools);
    verdicts.Some? && Settles(verdicts.value, o.code, failed, requested) && !tools.alarming(o.stderr)
  }

  lemma ReportsUnique(a: Failures, b: Failures, verdicts: seq<Verdict>)
    requires Reports(a, verdicts) && Reports(b, verdicts)
    ensures a == b
  {
  }

  lemma ConclusiveUnique(o: Output, a: Failures, b: Failures, requested: seq<string>, modules: Modules, tools: Tools)
    requires Conclusive(o, a, requested, modules, tools) && Conclusive(o, b, requested, modules, tools)
    ensures a == b
  {
    ReportsUnique(a, b, OutputVerdicts(o, requested, modules, tools).value);
  }

  /** The failures of a conclusive output; blocked otherwise. */
  ghost function ResultsOf(o: Output, requested: seq<string>, modules: Modules, tools: Tools): (r: Option<Failures>)
    ensures r.Some? ==> Conclusive(o, r.value, requested, modules, tools)
    ensures r.None? ==> forall failed :: !Conclusive(o, failed, requested, modules, tools)
  {
    if failed: Failures :| Conclusive(o, failed, requested, modules, tools) then Some(failed) else None
  }

  /** download_results: accepts exactly the conclusive outputs and returns the
      transport failures they report. */
  method DownloadResults(o: Output, requested: seq<string>, modules: Modules, tools: Tools) returns (r: Option<Failures>)
    ensures r.Some? ==> Conclusive(o, r.value, requested, modules, tools)
    ensures r == ResultsOf(o, requested, modules, tools)
  {
    r := DecodedResults(o, requested, modules, tools);
    if r.Some? && ResultsOf(o, requested, modules, tools).Some? {
      ConclusiveUnique(o, r.value, ResultsOf(o, requested, modules, tools).value, requested, modules, tools);
    }
  }

  method DecodedResults(o: Output, requested: seq<string>, modules: Modules, tools: Tools) returns (r: Option<Failures>)
    ensures r.Some? ==> Conclusive(o, r.value, requested, modules, tools)
    ensures r.None? ==> forall failed :: !Conclusive(o, failed, requested, modules, tools)
  {
    var verdicts := OutputVerdicts(o, requested, modules, tools);
    if verdicts.None? {
      return None;
    }
    r := SettleAttempt(verdicts.value, o.code, requested);
    if r.Some? && tools.alarming(o.stderr) {
      r := None;
    }
  }

  /** The loop over records, accumulating the modules seen and those failed. */
  method SettleAttempt(verdicts: seq<Verdict>, code: int, requested: seq<string>) returns (r: Option<Failures>)
    ensures r.Some? ==> Settles(verdicts, code, r.value, requested)
    ensures r.None? ==> forall failed :: !Settles(verdicts, code, failed, requested)
  {
    if verdicts == [] {
      return None;
    }
    var seen: set<string>, failed: Failures := {}, map[];
    var i := 0;
    while i < |verdicts|
      invariant 0 <= i <= |verdicts|
      invariant Clean(verdicts[..i]) && Reports(failed, verdicts[..i])
      invariant forall k :: k in seen <==> exists j :: 0 <= j < i && verdicts[j].key == k
    {
      var v := verdicts[i];
      assert verdicts[..i + 1] == verdicts[..i] + [v];
      if v.Rejected? || v.key in seen {
        assert !Clean(verdicts);
        return None;
      }
      assert forall k :: k in failed ==> k in seen;
      seen := seen + {v.key};
      if v.Lost? {
        failed := failed[v.key := v.failure];
      }
      i := i + 1;
    }
    assert verdicts[..i] == verdicts;
    forall other | Reports(other, verdicts) ensures other == failed { ReportsUnique(other, failed, verdicts); }
    if (exists k :: k in requested && k !in seen) || (code == 0) != (failed == map[]) {
      return None;
    }
    r := Some(failed);
  }
}
