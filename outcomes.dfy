/** Option and Result values, and the failures the modelled Python code raises.
    A Python exception that propagates out of an operation becomes `Err(fault)`. */
module Outcomes {

  datatype Option<+T> = None | Some(value: T) {
    function GetOr(default: T): T {
      match this
      case Some(v) => v
      case None => default
    }
  }

  /** The exceptions raised along the modelled code paths. */
  datatype Fault =
    | ModelUnavailable(brand: string)        // RuntimeError: no local file and no working download
    | UnreadableCheckpoint                   // torch.load failed (not a checkpoint, or a directory)
    | ZeroDimShape(tensor: string)           // IndexError: shape[0] of a zero-dimensional tensor
    | MissingKey(key: string)                // KeyError: checkpoint['model_state_dict']
    | WeightMismatch                         // load_state_dict(strict=True) refused the weights
    | TopKOutOfRange(k: int)                 // torch.topk with k < 0 or k > number of classes
    | NoPredictions                          // IndexError: predictions[0] of an empty list
    | ModelNotLoaded                         // AttributeError: no network was ever built
    | UrlNotConfigured                       // ValueError: missing or placeholder download URL
    | DownloadFailed                         // RuntimeError: the brand model could not be downloaded
    | TransferFailed                         // the downloader itself raised
    | FileMissingAfterDownload               // FileNotFoundError after the download returned

  datatype Result<+T> = Ok(value: T) | Err(fault: Fault)
}
