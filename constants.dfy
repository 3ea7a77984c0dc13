/** The catalogue data of the site: its services and its packages. */
module Constants {
  import opened Types

  /** The services offered, in display order (`SERVICES`). */
  const ServiceCatalog: seq<Service> := [
    Service("boarding", "Luxury Boarding"),
    Service("grooming", "Spa & Grooming"),
    Service("training", "Elite Training"),
    Service("adventure", "Adventure Treks")
  ]

  /** The packages on sale, in display order (`PACKAGES`). */
  const PackageCatalog: seq<Package> := [
    Package("daycare", "Day Escape", "$450 HKD",
      ["8 Hours of Play", "Socialization", "Mid-day Snack", "Grooming Touch-up"], false),
    Package("suite", "Executive Suite", "$850 HKD / Night",
      ["Private Room", "Webcam Access", "3 Walks Daily", "Gourmet Dinner"], true),
    Package("villa", "Royal Villa", "$1200 HKD / Night",
      ["Large Private Garden", "Therapeutic Massage", "24/7 Butler", "Chauffeur Service"], false),
    Package("training_camp", "Scholar Camp", "$5000 HKD / Week",
      ["Intensive Training", "Boarding Included", "Daily Progress Video", "Graduation Photo"], false)
  ]
}
