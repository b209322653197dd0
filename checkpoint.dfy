/** What a checkpoint file holds: the keys the classifiers read from the dictionary that
    `torch.load` returns. Each optional field is a key that may be missing. Tensors are
    represented by their shapes only. */
module Checkpoints {
  import opened Outcomes
  import opened OrderedDict

  type Shape = seq<nat>

  /** `model_state_dict`: tensor name to shape. */
  type StateDict = map<string, Shape>

  /** A dictionary key that is either a Python `str` or a Python `int`. */
  datatype Key = StrKey(s: string) | IntKey(n: int)

  datatype Checkpoint = Checkpoint(
    architecture: Option<string>,
    modelStateDict: Option<StateDict>,
    numClasses: Option<nat>,
    bestValAcc: Option<real>,
    brandName: Option<string>,
    modelType: Option<string>,
    epoch: Option<nat>,
    idxToModel: Option<Assoc<Key, string>>,
    classToIdx: Option<Assoc<string, Key>>)

  /** `checkpoint.get('model_state_dict', {})`. */
  function StateDictOrEmpty(ck: Checkpoint): StateDict {
    ck.modelStateDict.GetOr(map[])
  }

  /** The content of a regular file, as far as `torch.load` is concerned. */
  datatype Blob = Saved(checkpoint: Checkpoint) | Unreadable
}
