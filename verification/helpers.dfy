/** The small helpers the pipelines use as inline edge transforms, and the
    per-subject data source. */
module Helpers {
  import opened Wrappers

  /** The five items every subject provides, in the order the data source outputs them. */
  const DataItems: seq<string> := ["bold", "mask", "events", "regressors", "tr"]

  /** The default `order` argument of `_dict_ds`. */
  const DictDsDefaultOrder: seq<string> := ["bold", "mask", "events", "regressors", "tr"]

  /** Python's `KeyError`, carrying the missing key. */
  datatype KeyError = KeyError(key: string)

  /** `_len`: the number of contrast maps. */
  function Len<T>(l: seq<T>): nat
  {
    |l|
  }

  /** `_dof`: degrees of freedom of a one-sample group model. */
  function Dof<T>(l: seq<T>): int
  {
    |l| - 1
  }

  /** `_neg`: flips the sign of a z threshold. */
  function Neg(v: real): real
  {
    -v
  }

  /** `_get_tr`: `in_dict.get('RepetitionTime')`. */
  function GetTr<V>(inDict: map<string, V>): (r: Option<V>)
    ensures r.Some? <==> "RepetitionTime" in inDict
    ensures r.Some? ==> r.value == inDict["RepetitionTime"]
  {
    if "RepetitionTime" in inDict then Some(inDict["RepetitionTime"]) else None
  }

  /** `_dict_ds`: `tuple([in_dict[sub][k] for k in order])`. The subscripts run
      once per key, so an empty `order` never looks the subject up; otherwise a
      missing subject, then the first missing key, raises `KeyError`. */
  function DictDs<V>(inDict: map<string, map<string, V>>, sub: string, order: seq<string>)
    : (r: Result<seq<V>, KeyError>)
    ensures r.Success? <==> |order| == 0 || (sub in inDict && forall k :: k in order ==> k in inDict[sub])
    ensures r.Success? ==>
              && |r.value| == |order|
              && forall i :: 0 <= i < |order| ==> r.value[i] == inDict[sub][order[i]]
    ensures r.Failure? ==>
              if sub !in inDict then r.error.key == sub
              else r.error.key in order && r.error.key !in inDict[sub]
  {
    if |order| == 0 then Success([])
    else if sub !in inDict then Failure(KeyError(sub))
    else if order[0] !in inDict[sub] then Failure(KeyError(order[0]))
    else
      match DictDs(inDict, sub, order[1..])
      case Failure(e) => Failure(e)
      case Success(rest) => Success([inDict[sub][order[0]]] + rest)
  }

  /** With its default order, `_dict_ds` returns a present subject's five items
      in `DATA_ITEMS` order, so the data source's named outputs line up. */
  lemma DictDsFollowsDataItems<V>(inDict: map<string, map<string, V>>, sub: string)
    requires sub in inDict
    requires forall k :: k in DataItems ==> k in inDict[sub]
    ensures DictDsDefaultOrder == DataItems
    ensures var r := DictDs(inDict, sub, DictDsDefaultOrder);
            && r.Success?
            && |r.value| == 5
            && forall i :: 0 <= i < 5 ==> r.value[i] == inDict[sub][DataItems[i]]
  {
  }

  /** The degrees of freedom are one less than the number of maps. */
  lemma DofIsLenMinusOne<T>(l: seq<T>)
    ensures Dof(l) == Len(l) - 1
  {
  }

  /** Four subject maps: four copes, three degrees of freedom. */
  lemma FourCopes<T>(l: seq<T>)
    requires |l| == 4
    ensures Len(l) == 4 && Dof(l) == 3
  {
  }

  /** Negating twice gives back the threshold. */
  lemma NegInvolution(v: real)
    ensures Neg(Neg(v)) == v
  {
  }
}
