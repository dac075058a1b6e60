/** The sample data the service writes on first start: six products and one
    admin account, stamped with the start time `now`. */
module Seed {
  import opened Collections
  import opened Records

  function Products(now: string): seq<Product> {
    [ Product("1", "Power Dynamos FC Jersey", 450.0, "jerseys",
              "Official Power Dynamos FC home jersey with pride colors",
              "/football/shop/power_dynamos.jpeg", 50, ["S", "M", "L", "XL", "XXL"], true, now, None),
      Product("2", "Kabwe Warriors Away Jersey", 450.0, "jerseys",
              "Official away jersey in blue and black",
              "/football/shop/kabwe_warriors_away.jpg", 45, ["S", "M", "L", "XL", "XXL"], true, now, None),
      Product("3", "Soccer boots", 180.0, "training",
              "Professional training boots",
              "/football/shop/boots.jpeg", 100, ["S", "M", "L", "XL"], false, now, None),
      Product("4", "Zambian Scarf", 120.0, "accessories",
              "Show your support with official ZPL scarf",
              "/football/shop/scarf.jpeg", 200, ["One Size"], false, now, None),
      Product("5", "Match Ball - Official", 350.0, "equipment",
              "Official Zambian themed match ball",
              "/football/shop/ball.jpg", 30, ["Size 5"], true, now, None),
      Product("6", "FAZ Green Baseball Cap", 80.0, "accessories",
              "Embroidered FAZ logo cap",
              "/football/shop/faz_hat.jpeg", 150, ["One Size"], false, now, None) ]
  }

  function Admin(now: string): User {
    User("admin-1", "admin@zpl.zm", Some("admin123"), "Admin User", None, AdminRole, now, None)
  }
}
