/** The observable catalogue the prediction modules register into: named
    observables carrying a description and a TeX label, and the prediction
    function bound to each name. The catalogue is an explicit object passed
    to the registering code rather than a process-wide singleton. */
module Classes {
  import opened Base

  /** A prediction: from a coefficient object and parameters to a value. */
  type PredictionFunction = (WcObj, Par) -> Result<Float>

  /** `flavio.classes.Observable`: a name fixed at creation, and a
      description and TeX label the registering module sets afterwards. */
  class Observable {
    const name: string
    var description: string
    var tex: string

    constructor(name: string)
      ensures this.name == name && description == "" && tex == ""
    {
      this.name := name;
      description := "";
      tex := "";
    }

    /** `set_description`: replaces the description, nothing else. */
    method SetDescription(description: string)
      modifies this
      ensures this.description == description && tex == old(tex)
    {
      this.description := description;
    }
  }

  /** The catalogue of observables and of the predictions bound to them. */
  class Catalogue {
    var observables: map<string, Observable>
    var predictions: map<string, PredictionFunction>

    /** Every observable is filed under its own name. */
    ghost predicate Valid()
      reads this
    {
      forall n :: n in observables ==> observables[n].name == n
    }

    constructor()
      ensures Valid() && observables == map[] && predictions == map[]
    {
      observables := map[];
      predictions := map[];
    }

    /** Creates and files a new observable. The model's registry policy
        rejects a name already in use and leaves the catalogue as it was. */
    method Define(name: string) returns (r: Result<Observable>)
      requires Valid()
      modifies this
      ensures Valid()
      ensures predictions == old(predictions)
      ensures name in old(observables) ==> r == Err(DuplicateObservable(name)) && observables == old(observables)
      ensures name !in old(observables) ==>
                r.Ok? && fresh(r.value) && r.value.name == name && r.value.description == "" && r.value.tex == ""
                && observables == old(observables)[name := r.value]
    {
      if name in observables {
        return Err(DuplicateObservable(name));
      }
      var o := new Observable(name);
      observables := observables[name := o];
      return Ok(o);
    }

    /** `Prediction(name, function)`: binds the function to the name,
        replacing any earlier binding (last write wins). Afterwards the name
        evaluates to the new function and every other name to what it did
        before. */
    method AttachPrediction(name: string, f: PredictionFunction)
      requires Valid()
      modifies this
      ensures Valid()
      ensures predictions == old(predictions)[name := f] && observables == old(observables)
      ensures forall w, p :: Evaluate(name, w, p) == f(w, p)
      ensures forall n, w, p :: n != name ==> Evaluate(n, w, p) == old(Evaluate(n, w, p))
    {
      predictions := predictions[name := f];
    }

    /** Evaluates the prediction bound to a name; a name with no prediction
        is `NotFound`. */
    function Evaluate(name: string, w: WcObj, p: Par): Result<Float>
      reads this
    {
      if name in predictions then predictions[name](w, p) else Err(NotFound(name))
    }
  }
}
