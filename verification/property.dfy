/** `PropertyData` of backend/models/property.py: the listing record and the
    in-place derivation of its foreign-ownership fields. */
module Property {

  import opened Wrappers

  /** The three derived fields `compute_eligibility` may assign. */
  datatype Derived = Derived(hasLand: bool, isForeignEligibleDirect: bool, recommendedStructures: seq<string>)

  /** Which branch of `compute_eligibility` applies. */
  datatype Rule = StrataCondo | LandStructure | NoRule

  const StrataStructures: seq<string> := ["strata_title"]
  const LandStructures: seq<string> := ["leasehold", "company_structure"]

  /** The decision table: it reads only the type and the floor level. A
      floor level is truthy when it is present and not zero. */
  function RuleFor(propertyType: string, floorLevel: Option<int>): Rule
  {
    if propertyType == "condo" && floorLevel.Some? && floorLevel.value != 0 && floorLevel.value >= 2 then StrataCondo
    else if propertyType == "villa" || (propertyType == "condo" && floorLevel == Some(1)) then LandStructure
    else if propertyType == "land" then LandStructure
    else NoRule
  }

  /** The derived fields after the chosen branch has run. */
  function Apply(rule: Rule, d: Derived): Derived
  {
    match rule
    case StrataCondo => d.(isForeignEligibleDirect := true, recommendedStructures := StrataStructures)
    case LandStructure => Derived(true, false, LandStructures)
    case NoRule => d
  }

  class PropertyData {
    var id: string
    var url: string
    var propertyType: string
    var priceUsd: Option<real>
    var bedrooms: Option<int>
    var bathrooms: Option<int>
    var sizeSqm: Option<real>
    var landSizeSqm: Option<real>
    var ownershipType: Option<string>
    var floorLevel: Option<int>
    var location: Option<string>
    var hasLand: bool
    var isForeignEligibleDirect: bool
    var recommendedStructures: seq<string>

    function DerivedFields(): Derived
      reads this
    {
      Derived(hasLand, isForeignEligibleDirect, recommendedStructures)
    }

    /** The model's constructor with its field defaults: every optional field
        `None`, `has_land` and `is_foreign_eligible_direct` false, and no
        recommended structures. */
    constructor (id: string, url: string, propertyType: string,
                 priceUsd: Option<real> := None, bedrooms: Option<int> := None, bathrooms: Option<int> := None,
                 sizeSqm: Option<real> := None, landSizeSqm: Option<real> := None,
                 ownershipType: Option<string> := None, floorLevel: Option<int> := None,
                 location: Option<string> := None,
                 hasLand: bool := false, isForeignEligibleDirect: bool := false,
                 recommendedStructures: seq<string> := [])
      ensures this.id == id && this.url == url && this.propertyType == propertyType
      ensures this.priceUsd == priceUsd && this.bedrooms == bedrooms && this.bathrooms == bathrooms
      ensures this.sizeSqm == sizeSqm && this.landSizeSqm == landSizeSqm
      ensures this.ownershipType == ownershipType && this.floorLevel == floorLevel && this.location == location
      ensures DerivedFields() == Derived(hasLand, isForeignEligibleDirect, recommendedStructures)
    {
      this.id, this.url, this.propertyType := id, url, propertyType;
      this.priceUsd, this.bedrooms, this.bathrooms := priceUsd, bedrooms, bathrooms;
      this.sizeSqm, this.landSizeSqm := sizeSqm, landSizeSqm;
      this.ownershipType, this.floorLevel, this.location := ownershipType, floorLevel, location;
      this.hasLand, this.isForeignEligibleDirect := hasLand, isForeignEligibleDirect;
      this.recommendedStructures := recommendedStructures;
    }

    /** `compute_eligibility`: assigns the derived fields in place from the
        type and floor level, and returns the object itself. */
    method ComputeEligibility() returns (self: PropertyData)
      modifies this`hasLand, this`isForeignEligibleDirect, this`recommendedStructures
      ensures self == this
      ensures DerivedFields() == Apply(RuleFor(propertyType, floorLevel), old(DerivedFields()))
    {
      if propertyType == "condo" && floorLevel.Some? && floorLevel.value != 0 && floorLevel.value >= 2 {
        isForeignEligibleDirect := true;
        recommendedStructures := ["strata_title"];
      } else if propertyType == "villa" || (propertyType == "condo" && floorLevel == Some(1)) {
        isForeignEligibleDirect := false;
        hasLand := true;
        recommendedStructures := ["leasehold", "company_structure"];
      } else if propertyType == "land" {
        isForeignEligibleDirect := false;
        hasLand := true;
        recommendedStructures := ["leasehold", "company_structure"];
      }
      return this;
    }
  }

  /** A condo on floor 2 or above may be owned directly under a strata title;
      `has_land` keeps its value. */
  lemma CondoAboveGroundFloor(propertyType: string, floorLevel: Option<int>, d: Derived)
    requires propertyType == "condo" && floorLevel.Some? && floorLevel.value >= 2
    ensures Apply(RuleFor(propertyType, floorLevel), d) == Derived(d.hasLand, true, ["strata_title"])
  {
  }

  /** A villa, a ground-floor condo (floor 1) or land gets land, no direct
      eligibility, and the leasehold and company structures. */
  lemma LandBearingProperty(propertyType: string, floorLevel: Option<int>, d: Derived)
    requires propertyType == "villa" || propertyType == "land" || (propertyType == "condo" && floorLevel == Some(1))
    ensures Apply(RuleFor(propertyType, floorLevel), d) == Derived(true, false, ["leasehold", "company_structure"])
  {
  }

  /** Every other case (a house, an unknown type, a condo whose floor level
      is missing, zero, negative) leaves all derived fields as they were. */
  lemma OtherPropertyUnchanged(propertyType: string, floorLevel: Option<int>, d: Derived)
    requires propertyType != "villa" && propertyType != "land"
    requires propertyType == "condo" ==> floorLevel.None? || floorLevel.value < 1
    ensures Apply(RuleFor(propertyType, floorLevel), d) == d
  {
  }

  /** Deriving twice gives the state of deriving once: the branch depends only
      on the type and floor level, which the derivation never writes. */
  lemma ComputeEligibilityIdempotent(propertyType: string, floorLevel: Option<int>, d: Derived)
    ensures var rule := RuleFor(propertyType, floorLevel);
      Apply(rule, Apply(rule, d)) == Apply(rule, d)
  {
  }
}
