/**
 * The loop of main.go:58-154 over all services of the project. Go's map
 * iteration order is unspecified, so the order is a parameter: any ordering
 * of the service names. The first error ends the run; the outputs before it
 * are the files that were written.
 */
module Driver {
  import opened Wrappers
  import opened Compose
  import opened Translation
  import opened TranslationProperties

  /** `order` lists every service name exactly once. */
  ghost predicate IsOrdering(configs: map<string, ServiceConfig>, order: seq<string>)
  {
    && (forall name :: name in configs <==> name in order)
    && (forall i, j :: 0 <= i < j < |order| ==> order[i] != order[j])
  }

  /**
   * Translates the services one by one, in `order`. `written` holds the
   * outputs of the services handled before the run stopped (all of them
   * when `failure` is None). DistinctFileNames applies to them.
   */
  method TranslateProject(configs: map<string, ServiceConfig>, order: seq<string>)
    returns (written: seq<Output>, failure: Option<Error>)
    requires IsOrdering(configs, order)
    ensures |written| <= |order|
    ensures forall i :: 0 <= i < |written| ==> Translate(order[i], configs[order[i]]) == Ok(written[i])
    ensures failure.None? ==> |written| == |order|
    ensures failure.Some? ==>
      |written| < |order| && Translate(order[|written|], configs[order[|written|]]) == Err(failure.value)
  {
    assert forall k :: 0 <= k < |order| ==> order[k] in configs;
    written := [];
    for i := 0 to |order|
      invariant |written| == i
      invariant forall k :: 0 <= k < i ==> Translate(order[k], configs[order[k]]) == Ok(written[k])
    {
      var name := order[i];
      var r := TranslateService(name, configs[name]);
      if r.Err? {
        failure := Some(r.error);
        return;
      }
      TranslatedSnoc(configs, order, written, r.value);
      written := written + [r.value];
    }
    failure := None;
  }

  /** One more service translated: the outputs so far, extended by its output. */
  lemma TranslatedSnoc(configs: map<string, ServiceConfig>, order: seq<string>, written: seq<Output>, out: Output)
    requires |written| < |order| && forall k :: 0 <= k < |order| ==> order[k] in configs
    requires forall k :: 0 <= k < |written| ==> Translate(order[k], configs[order[k]]) == Ok(written[k])
    requires Translate(order[|written|], configs[order[|written|]]) == Ok(out)
    ensures forall k :: 0 <= k < |written| + 1 ==> Translate(order[k], configs[order[k]]) == Ok((written + [out])[k])
  {
    forall k | 0 <= k < |written| + 1
      ensures Translate(order[k], configs[order[k]]) == Ok((written + [out])[k])
    {
      if k < |written| {
        assert (written + [out])[k] == written[k];
      }
    }
  }

  /** Outputs of distinct services, as TranslateProject returns them, carry distinct file names. */
  lemma DistinctFileNames(configs: map<string, ServiceConfig>, order: seq<string>, written: seq<Output>)
    requires |written| <= |order|
    requires forall i, j :: 0 <= i < j < |order| ==> order[i] != order[j]
    requires forall k :: 0 <= k < |written| ==> order[k] in configs
    requires forall k :: 0 <= k < |written| ==> Translate(order[k], configs[order[k]]) == Ok(written[k])
    ensures forall i, j :: 0 <= i < j < |written| ==> written[i].fileName != written[j].fileName
  {
    forall i, j | 0 <= i < j < |written|
      ensures written[i].fileName != written[j].fileName
    {
      TranslateFileName(order[i], configs[order[i]]);
      TranslateFileName(order[j], configs[order[j]]);
      if written[i].fileName == written[j].fileName {
        FileNameInjective(order[i], ObjType(written[i].obj), order[j], ObjType(written[j].obj));
      }
    }
  }
}
