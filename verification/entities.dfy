/** The records exchanged with the backend (`User`, `Restaurant`, `Food`,
    `OrderItem`, `Order`). Money is in whole currency units and ratings are
    in tenths of a star; optional (`?:`) fields are `Option`s. */
module Entities {
  import opened Wrappers

  datatype User = User(
    customerId: int,
    customerName: string,
    contactNumber: string,
    address: string,
    email: Option<string>)

  datatype Restaurant = Restaurant(
    resId: int,
    resName: string,
    resLocation: string,
    resRating: int,
    imageUrl: Option<string>)

  datatype Food = Food(
    foodId: int,
    foodName: string,
    pricePerUnit: int,
    restaurantId: Option<int>,
    category: Option<string>,
    description: Option<string>,
    imageUrl: Option<string>,
    isVegetarian: Option<bool>,
    isBestseller: Option<bool>)

  /** One line of an order: a snapshot of the food at ordering time. */
  datatype OrderItem = OrderItem(
    foodId: int,
    quantity: int,
    foodName: Option<string>,
    pricePerUnit: Option<int>)

  datatype Order = Order(
    orderId: Option<int>,
    customerId: int,
    resId: int,
    orderStatus: Option<string>,
    totalAmount: Option<int>,
    items: seq<OrderItem>,
    restaurantName: Option<string>)
}
