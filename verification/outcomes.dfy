/** Values shared by every part of the labelling cycle: optional values, the
    Python exceptions that matter to the loop, and what one detector returns. */
module Outcomes {

  datatype Option<+T> = None | Some(value: T)

  /** The exception classes that can reach the `try` of the main loop. */
  datatype PyError =
    | KeyError          // os.environ['NODE_NAME'] missing, or a missing 'message' in an API error body
    | AttributeError    // `.groups()` called on the None that re.search returns on no match
    | TypeError         // subscripting node labels that the API reports as None
    | OSError           // the version file exists but cannot be read
    | ApiException      // a Kubernetes API call failed
    | JSONDecodeError   // an API error body that is not JSON

  /** What a call of one labelling function gives the loop: the bare `None`
      (abstain), a `(key, value)` tuple whose value may be `None`, or an
      exception it raised. */
  datatype DetectorOutcome =
    | Abstain
    | Label(key: string, value: Option<string>)
    | Raise(error: PyError)

  /** The dict the loop builds: label key to a string or `None`. */
  type Labels = map<string, Option<string>>
}
