/** Inherited class-level settings.

    Several model-level settings (`strict_loading_by_default`, the connection
    specification name a model's queries are routed under) are class
    attributes: a class reads its own value when it has set one and otherwise
    inherits the value of its nearest ancestor that did. A class is represented
    by its ancestor chain, the class itself first and the root last.
 */
module ClassHierarchy {

  type ClassName = string

  /** A class and its ancestors, most specific first; never empty. */
  type ClassChain = c: seq<ClassName> | |c| > 0 witness ["ActiveRecord::Base"]

  /** True when no class in `chain[..i]` sets a value: `chain[i]` is then the
      nearest class that could supply one. */
  ghost predicate NoneSetBefore<T>(chain: seq<ClassName>, settings: map<ClassName, T>, i: int) {
    forall j :: 0 <= j < i && j < |chain| ==> chain[j] !in settings
  }

  /** The value `chain[0]` reads: its own setting, else its nearest ancestor's,
      else `fallback`. */
  function Inherited<T>(chain: seq<ClassName>, settings: map<ClassName, T>, fallback: T): (r: T)
    ensures NoneSetBefore(chain, settings, |chain|) ==> r == fallback
    ensures forall i :: 0 <= i < |chain| && chain[i] in settings && NoneSetBefore(chain, settings, i) ==>
              r == settings[chain[i]]
    decreases |chain|
  {
    if |chain| == 0 then fallback
    else if chain[0] in settings then settings[chain[0]]
    else
      var r := Inherited(chain[1..], settings, fallback);
      assert forall i :: 1 <= i < |chain| && NoneSetBefore(chain, settings, i) ==>
               NoneSetBefore(chain[1..], settings, i - 1);
      r
  }

  /** A subclass's own setting overrides whatever its ancestors set. */
  lemma OwnSettingOverrides<T>(sub: ClassName, parent: seq<ClassName>, settings: map<ClassName, T>, v: T, fallback: T)
    ensures Inherited([sub] + parent, settings[sub := v], fallback) == v
  {
    assert ([sub] + parent)[0] == sub;
  }

  /** A subclass that sets nothing reads exactly what its parent reads. */
  lemma UnsetSubclassInherits<T>(sub: ClassName, parent: seq<ClassName>, settings: map<ClassName, T>, fallback: T)
    requires sub !in settings
    ensures Inherited([sub] + parent, settings, fallback) == Inherited(parent, settings, fallback)
  {
    assert ([sub] + parent)[1..] == parent;
  }
}
