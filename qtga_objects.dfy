/**
 * The two QtGA objects with state: QtGA (the network manager it talks through and the
 * session flag) and QtGAHit (a configuration copy and the parameter map of one hit).
 */
module QtGAObjects {
  import opened Wrappers
  import opened QtGATypes
  import Conf = Configuration

  /** The identity of a QObject: a parent, or a QNetworkAccessManager. */
  type ObjectId = nat

  class QtGA {
    /** QObject::parent(). */
    var parent: Option<ObjectId>
    /** m_nam; None is the null pointer. */
    var nam: Option<ObjectId>
    var session: Session

    /**
     * The session flag starts as NoSession. A parent that is a QNetworkAccessManager becomes
     * the manager; otherwise m_nam is never initialised, so its first value is arbitrary.
     */
    constructor(parent: Option<ObjectId>, parentIsManager: bool)
      ensures this.parent == parent && session == NoSession
      ensures parent.Some? && parentIsManager ==> nam == parent
    {
      this.parent := parent;
      session := NoSession;
      if parent.Some? && parentIsManager {
        nam := parent;
      } else {
        nam := *;
      }
    }

    /** A non-null manager becomes both the manager and the parent; null changes nothing. */
    method SetNetworkAccessManager(manager: Option<ObjectId>)
      modifies this`nam, this`parent
      ensures manager.Some? ==> nam == manager && parent == manager
      ensures manager.None? ==> nam == old(nam) && parent == old(parent)
    {
      if manager.Some? {
        parent := manager;
        nam := manager;
      }
    }

    function NetworkAccessManager(): Option<ObjectId>
      reads this
    {
      nam
    }

    method StartSession()
      modifies this`session
      ensures session == Session.StartSession
    {
      session := Session.StartSession;
    }

    method EndSession()
      modifies this`session
      ensures session == Session.EndSession
    {
      session := Session.EndSession;
    }
  }

  class QtGAHit {
    var config: Conf.Settings
    /** m_parameters: a QMap, so one value per parameter. */
    var parameters: map<Parameter, Value>

    constructor(config: Conf.Settings)
      ensures this.config == config && parameters == map[]
    {
      this.config := config;
      parameters := map[];
    }

    method SetConfiguration(config: Conf.Settings)
      modifies this`config
      ensures this.config == config
    {
      this.config := config;
    }

    function Configuration(): Conf.Settings
      reads this
    {
      config
    }

    /** Stores the value under the parameter, replacing an earlier one; no other entry changes. */
    method AddParameter(parameter: Parameter, value: Value)
      modifies this`parameters
      ensures parameters == old(parameters)[parameter := value]
      ensures parameter in parameters && parameters[parameter] == value
      ensures forall q :: q != parameter ==> (q in parameters <==> q in old(parameters))
      ensures forall q :: q != parameter && q in parameters ==> parameters[q] == old(parameters)[q]
    {
      parameters := parameters[parameter := value];
    }

    /** Records both texts; reading them back gives exactly those texts. */
    method SetExperiment(id: string, variant: string)
      modifies this`parameters
      ensures parameters == old(parameters)[QtGATypes.ExperimentID := StringValue(id)]
                                           [QtGATypes.ExperimentVariant := StringValue(variant)]
      ensures ExperimentID() == id && ExperimentVariant() == variant
    {
      parameters := parameters[QtGATypes.ExperimentID := StringValue(id)];
      parameters := parameters[QtGATypes.ExperimentVariant := StringValue(variant)];
    }

    /** The stored experiment ID as text, or "" when none was stored. */
    function ExperimentID(): (r: string)
      reads this
      ensures QtGATypes.ExperimentID !in parameters ==> r == ""
      ensures forall s ::
                (QtGATypes.ExperimentID in parameters && parameters[QtGATypes.ExperimentID] == StringValue(s)) ==> r == s
    {
      if QtGATypes.ExperimentID in parameters then parameters[QtGATypes.ExperimentID].ToString() else ""
    }

    /** The stored experiment variant as text, or "" when none was stored. */
    function ExperimentVariant(): (r: string)
      reads this
      ensures QtGATypes.ExperimentVariant !in parameters ==> r == ""
      ensures forall s ::
                (QtGATypes.ExperimentVariant in parameters && parameters[QtGATypes.ExperimentVariant] == StringValue(s)) ==> r == s
    {
      if QtGATypes.ExperimentVariant in parameters then parameters[QtGATypes.ExperimentVariant].ToString() else ""
    }

    function Parameters(): map<Parameter, Value>
      reads this
    {
      parameters
    }
  }
}
